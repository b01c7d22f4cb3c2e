# UniCast: a verified model

UniCast casts a media file to a Chromecast, a DLNA renderer or an AirPlay
receiver. This Dafny project models its algorithms and its one concurrent
protocol, and proves what they promise. `dafny verify dfyconfig.toml` checks
everything.

| file | models | main results |
|---|---|---|
| `Text.dfy` | Rust's string operations | splitting, trimming, finding and writing lines |
| `TimeText.dfy`, `ClockText.dfy` | clock times as text | printer and parser are inverse, base 60; what every written number and time is worth |
| `SrtText.dfy`, `CueText.dfy` | one line of cue text | decodes every escaped line; drops every tag SubRip does not know |
| `Subtitles.dfy`, `SubtitleLaws.dfy`, `SubtitleFiles.dfy`, `SubtitleExample.dfy`, `SubtitleMeaning.dfy` | re-timing WebVTT and writing SubRip | the line loops are a filter and map on the list of cues, for exactly which documents; shifts compose; at every instant the re-timed stream shows what the film shows then; the SubRip read back shows exactly the visible lines, in order, at their times |
| `Daemon.dfy`, `DaemonSafety.dfy`, `DaemonRuns.dfy`, `PollerRuns.dfy`, `DaemonCommands.dfy` | the session lifecycle as a transition system | slots follow the session in every reachable state; stale workers are harmless; every session is auto-stopped at most once and no end is forgotten; from what a receiver answered, exactly when its poller ends the session; what each command comes to |
| `FrameLimit.dfy` | the length filter under the Cast protocol library | in step with a pure parser for every chunking; an oversized frame never gets out |
| `CastLoop.dfy`, `CastPanel.dfy` | the Cast session loop | the loop refines a fold of its history; when exactly a cast ends or loses its link; why the panel shows what it shows, exactly; what each command asks of the receiver |
| `SeekStart.dfy` | the keyframe search and the start sent to ffmpeg | the last keyframe no later than a position; when exactly the start sent is too late |
| `PlaybackInfo.dfy` | the AirPlay property-list reader | equals a lookup in the tree, within the event cap |
| `Description.dfy` | the UPnP description reader | equals a lookup in the tree, for every tree and every splitting of its text; what nesting does, exactly |
| `FirewallText.dfy`, `UfwTuples.dfy`, `UserRules.dfy`, `Firewall.dfy`, `FirewallRuns.dfy` | ledger lines, ufw's rule file, opening and clearing while each other and the user go on | round trips; which lines of ufw's speak for a rule, exactly; a bounded scan refines a whole-file split; exactly when a rule of the user's is taken, and when one of ours is forgotten |
| `Transcodes.dfy` | admission of live ffmpeg streams | at most two live; when exactly one is ended |
| `ByteRange.dfy` | one byte range of a file | replies mean what RFC 9110 says; consecutive ranges join to the file |
| `Discovery.dfy` | merging receiver records | one device per address that stands for all its records, in any order |

Seconds are reals and numbers in text are read exactly; printed times are
rounded to the millisecond, with the saturation of the 64-bit cast. Text is a
sequence of characters. What receivers, ufw, polkit, ffmpeg and the clock answer
is a parameter of the step or method that asks, and every theorem holds for all
answers.

Loops of the program are methods with loops. Each is proved equal to a function
of its input, and the properties are proved of that function. In the daemon one
step is the code between two points where another task can run; handlers take
turns under the action lock while pollers and Cast threads step at any time.

What those functions are worth is said once more without them: by what is on the screen
at an instant, by the lines a SubRip file shows, by the answers a receiver gave, by the
reason the panel has for what it shows, by the tuples ufw writes.

Some promises hold only under a condition the code does not check. The condition is
proved exact, with an input for which it fails:

- Re-timing is done block by block exactly for documents whose every block shifts
  well: its cue is over, or no other line of it that reads as a timing is dropped or
  printed differently (`SubtitleLaws.LinesShiftWell`). One timing per block, as W3C
  WebVTT, section 4.1, has it, is enough for every shift
  (`SubtitleLaws.OkShiftsWell`). `SubtitleExample.TwoTimingsLoseACue` gives a document
  that loses a cue.
- The UPnP reader does not know services inside services, which the device template
  rules out (UPnP Device Architecture 1.0, section 2.1). `Description.ParsedIsHoisted`
  says what it finds in any tree: the document with inner services lifted out. That is
  the document itself exactly without services inside services
  (`Description.HoistedIsFacts`); `Description.NestedServiceIsLost` gives a tree where
  a control URL is missed.
- The start of a Cast stream is printed with three decimals, so it can be later than
  the wanted position or the keyframe found. `CastLoop.SeekLands` and
  `CastLoop.ExactSeekLands` say exactly when, `CastLoop.ExactSeekIsLate` and
  `SeekStart.KeyframeMissed` give inputs. DLNA and AirPlay casts round keyframes down
  first (`SeekStart.KeyframeStartIsSent`).
- A printed DLNA time is read back exactly up to the longest plausible position
  (`TimeText.HmsRoundTrip`; `TimeText.HmsTooLong` is past it).
- `clear` runs without the action lock (src/daemon.rs:343-346), so it can overlap an
  `open` or another `clear`; each writes back what it made of an earlier reading of the
  ledger, and polkit can take a minute in between. Over all such runs with an honest ufw,
  `FirewallRuns.UsersRuleTaken` says exactly how a rule of the user's is replaced or
  deleted, with `FirewallRuns.ReplacedDuringPrompt` and
  `FirewallRuns.DeletedAfterStaleWrite` as inputs, and `FirewallRuns.ForgottenExactly` how
  one of ours is forgotten, with `FirewallRuns.ForgottenByOverlap` and
  `FirewallRuns.ForgottenByClearing`. `FirewallRuns.RecordedAgain` shows that a forgotten
  rule can come back. In calm runs, where no `clear` overlaps another call and the user
  sets no rule that is recorded or being opened, the user's rules are never touched
  (`FirewallRuns.UsersRulesUntouched`) and only an inactive ufw makes `clear` forget
  (`FirewallRuns.ForgottenOnlyWhenInactive`).

Three remarks on the program. The comment describing `shift_vtt` stands above
`vtt_to_srt` (src/subtitles.rs:465-467). A status that says "finished" or "error"
ends a cast even when it belongs to another media session
(src/cast.rs:1192-1200); only "cancelled" and "interrupted" look at the session
(`CastLoop.OtherSessionEnds`). When a receiver refuses the stream of a `restream`, the
end of the session is posted twice, by the restart and by `restream`
(src/daemon.rs:1176-1178 and 1293-1297; `DaemonCommands.RestreamRestarts`); it is acted
on once (`DaemonRuns.AutoStoppedOnce`).

## Model

| member | source | states |
|---|---|---|
| TimeText.ParseTimestamp | src/subtitles.rs:432-443 | the fold over the parts gives the base-60 value of two or three decimals, none otherwise |
| TimeText.Hms | src/util.rs:161-174 | one to three parts, bounded to plausible media seconds, 0 for anything else |
| TimeText.TimestampRoundTrip | src/subtitles.rs:432-453 | reading a printed time gives the time to the millisecond, for every real; minutes and seconds stay below 60 |
| TimeText.MillisFields | src/subtitles.rs:447-452 | the printed fields are the mixed-radix digits of the millisecond count |
| TimeText.WholeMillis | src/subtitles.rs:446-453 | a whole number of milliseconds is printed without loss |
| TimeText.WholeSeconds | src/dlna.rs:586-592 | the hours, minutes and seconds printed from real arithmetic are those of the whole second |
| TimeText.HmsRoundTrip | src/dlna.rs:586-592 | a printed position is read back as its whole seconds exactly when those are plausible |
| TimeText.HmsTooLong | src/util.rs:149-159 | a position past the longest plausible one is not read back |
| ClockText.SignedMeans | src/subtitles.rs:439-441 | a number is its digits, with its sign, and its decimals |
| ClockText.FractionIsScaled | src/subtitles.rs:439-441 | n decimals are worth their digits over ten to the n |
| ClockText.ExponentMeans | src/subtitles.rs:439-441 | an exponent behind either mark moves the point by as many places |
| ClockText.PartsMean | src/util.rs:161-174 | seconds, minutes and seconds, or hours, minutes and seconds; a subtitle time needs two parts, nothing has four, and an implausible position is 0 |
| ClockText.PrintedIsNearest | src/subtitles.rs:446-447 | the printed time is the nearest millisecond, the later one from halfway on, and 0 before the beginning, saturated at 64 bits |
| ClockText.SubtitleTimeLooks | src/subtitles.rs:446-453 | two, two, two and three places; only the hours can take more |
| ClockText.RendererTimeLooks | src/dlna.rs:586-592 | two places each, hours, minutes and seconds of the whole second; only the hours can take more |
| SrtText.StripLoop | src/subtitles.rs:528-547 | the tag loop stops and leaves the line with each closed tag replaced by its kept markup |
| SrtText.SrtText | src/subtitles.rs:526-555 | tags first, then the six entities in the order of the chain |
| SrtText.CueTextShown | src/subtitles.rs:526-555 | for every line of characters, references and tags: what the viewer should see, with only i, b and u markup |
| SrtText.UnescapesEveryLine | src/subtitles.rs:548-554 | escaping any text for WebVTT and converting it gives the text back |
| SrtText.ReplacePieces | src/subtitles.rs:548-554 | each link of the replace chain decodes its own entity and nothing an earlier link produced |
| CueText.References | src/subtitles.rs:548-554 | each of the six references stands for its character, in any text; any other stays |
| CueText.Tags | src/subtitles.rs:528-546 | italics, bold and underline stay without their classes, opening and closing, in any text; any other tag goes |
| CueText.Unclosed | src/subtitles.rs:532-536 | an opening bracket never closed is text |
| Subtitles.TimingRoundTrip | src/subtitles.rs:456-464 | a written timing line is read back: both times to the millisecond and the settings |
| SubtitleMeaning.TimingFound | src/subtitles.rs:456-464 | any whitespace may stand around the arrow and between the parts of a timing line |
| Subtitles.ShiftVtt | src/subtitles.rs:557-611 | the loop with its pending lines and dropping flag writes what the look-ahead definition says, for every text, and the text itself for no shift (what it means: SubtitleMeaning.BlocksEarlier and SameScreen) |
| Subtitles.VttToSrt | src/subtitles.rs:474-519 | the loop with its block buffer writes the byte-order mark and the numbered entries of the document's cues, for every text (what they show: SubtitleMeaning.SubRipShows) |
| SubtitleLaws.BlockShiftsWell | src/subtitles.rs:564-602 | a block comes out with just its cue's timing rewritten, or not at all, exactly when it shifts well |
| SubtitleLaws.LinesShiftWell | src/subtitles.rs:557-611 | a document is re-timed block by block exactly when all its blocks shift well; never is a line added |
| SubtitleLaws.OkShiftsWell | src/subtitles.rs:580-602 | a block with one timing, in its place, shifts well by any amount |
| SubtitleLaws.BlockAndRest | src/subtitles.rs:564-576 | the blank line behind a block is lost exactly when some timing in it is over |
| SubtitleLaws.ShiftOneBlock | src/subtitles.rs:562-602 | a block that shifts well is kept with its timing rewritten, or dropped together with its blank line, whatever follows |
| SubtitleLaws.BlocksOfShift | src/subtitles.rs:557-611 | re-timing the lines is re-timing the blocks, where all shift well |
| SubtitleLaws.CuesOfShiftedText | src/subtitles.rs:557-611 | the cues of the re-timed document are the re-timed cues, in order (what they are: SubtitleMeaning.CuesEarlier and SameScreen), and a well-formed document stays well-formed |
| SubtitleLaws.ShiftsCompose | src/subtitles.rs:557-611 | re-timing by a and then by c gives the same text as re-timing by their sum |
| SubtitleLaws.RetimedSubRip | src/media_server.rs:557-564 | the SubRip of a re-timed document lists the re-timed visible cues, numbered from one (what it shows: SubtitleMeaning.ServedShows) |
| SubtitleLaws.TwoTimingsJoinBlocks | src/subtitles.rs:577-586 | a kept timing followed by one that is over loses the separating blank line |
| SubtitleExample.TwoTimingsLoseACue | src/subtitles.rs:577-586 | a document of three blocks where two cues should be left and one is |
| SubtitleFiles.DocumentRead | src/subtitles.rs:456-464 | every list of cues is the content of some well-formed document |
| SubtitleFiles.SubRipRead | src/subtitles.rs:474-519 | for every text, splitting the written SubRip into blocks gives one block per visible cue: header, NOTE and STYLE never leak (what the blocks show: SubtitleMeaning.SubRipShows) |
| SubtitleFiles.AsReadSame | src/subtitles.rs:509-512 | a body line is read back as written exactly when it does not end in a carriage return |
| SubtitleFiles.EntryBlocksAt | src/subtitles.rs:502-513 | entry i carries number i + 1 |
| SubtitleFiles.ServedSubRip | src/media_server.rs:557-564 | the file served for a start time, read back, holds a block for each re-timed visible cue (what they show: SubtitleMeaning.ServedShows) |
| SubtitleMeaning.SameScreen | src/subtitles.rs:580-590 | for whole milliseconds, at every instant of the stream the re-timed document shows, in order and with the same settings, exactly what the file shows at that instant of the film |
| SubtitleMeaning.CuesEarlier | src/subtitles.rs:580-602 | the cues left are, in order, exactly those that end later, so much earlier to the printed millisecond, from the beginning where they straddle it, and otherwise unchanged |
| SubtitleMeaning.BlocksEarlier | src/subtitles.rs:557-611 | the whole document: exactly the blocks of cues that are over go, and in those that stay, comments included, only the timing line changes |
| SubtitleMeaning.SrtTimeRead | src/subtitles.rs:521-523 | a SubRip time, read at its comma, is the time to the millisecond |
| SubtitleMeaning.SrtTimesRead | src/subtitles.rs:502-508 | the times line of an entry is read back as its start and its end |
| SubtitleMeaning.BodyPicks | src/subtitles.rs:496-500 | an increasing map takes the lines of an entry to exactly the lines of the cue that show something, each the text of its image |
| SubtitleMeaning.SubRipShows | src/subtitles.rs:474-519 | for every text, the SubRip file read back shows, in order and numbered from one, exactly the cues with something to show, at their times, with exactly the lines that show something, in their order |
| SubtitleMeaning.ServedShows | src/media_server.rs:557-564 | the same of the file served for a start time: exactly the cues that end later and show something, so much earlier |
| DaemonSafety.InitInv | src/daemon.rs:309-323 | the lifecycle invariant holds at the start |
| DaemonSafety.StepKeeps | src/daemon.rs:455-1428 | every step of every handler, poller and Cast thread keeps the lifecycle invariant |
| DaemonSafety.WorkerStepEffect | src/daemon.rs:1469-1474 | a worker never changes the session's id or protocol, nor a session that is not its own |
| DaemonSafety.SectionEffect | src/daemon.rs:1475-1506 | a poller's critical section keeps the id, the protocol and the worker's identity, and reports an end only with the session stopped or failed (exactly when: PollerRuns.DlnaEndsExactly and AirplayEndsExactly) |
| DaemonRuns.RunInv | src/daemon.rs:455-1428 | the lifecycle invariant holds in every state of every run |
| DaemonRuns.SlotsFollowSession | src/daemon.rs:807-837 | never two slots; a filled slot matches the session; lock free and no session means nothing is held; lock free and a session means its slot and context are there |
| DaemonRuns.NoPollerLeft | src/daemon.rs:1231-1287 | with the lock free the only poller not aborted is the one in the session's slot |
| DaemonRuns.IdStep | src/daemon.rs:503-510 | the id changes only where a handler resets the session or takes the next, larger id |
| DaemonRuns.StaleForever | src/daemon.rs:503-510 | an id that is over never becomes current again |
| DaemonRuns.WorkerKeepsSession | src/daemon.rs:744-751 | a worker keeps its session and protocol for life, and once aborted stays so |
| DaemonRuns.StaleWorkerIsHarmless | src/cast.rs:1245-1253 | a poller or Cast thread of an earlier session changes nothing visible, however late it steps |
| DaemonRuns.AbortedPollerWritesOnce | src/daemon.rs:1469-1474 | an aborted poller runs at most one more critical section |
| DaemonRuns.AutoStoppedOnce | src/daemon.rs:1390-1409 | no session is stopped automatically twice |
| DaemonRuns.AutoStopDecision | src/daemon.rs:1390-1409 | an event tears down exactly when its session is current and ended as the lock is obtained |
| DaemonRuns.LateEventIgnored | src/daemon.rs:1396-1400 | a duplicate event, or one for a session replaced or revived, changes nothing |
| DaemonRuns.TeardownCompletes | src/daemon.rs:807-837 | after a teardown the next moment the lock is free finds no session, slot, server or live poller |
| DaemonRuns.EndedSessionIsReported | src/daemon.rs:1524-1527 | an ended DLNA or AirPlay session always has its event queued, in the consumer's hand or about to be posted |
| DaemonRuns.RunPosted | src/daemon.rs:841-851 | the same while handlers hold the lock, where fail_session may still be about to post |
| PollerRuns.PollerUpToDate | src/daemon.rs:1442-1445 | in every state of every run a poller's flag and counter are what its receiver's answers so far amount to |
| PollerRuns.DlnaEndsExactly | src/daemon.rs:1475-1506 | over every run, from the answers alone: a poller whose session is current stops it exactly on a stop after playing, fails it exactly on the twentieth silence in a row or when nothing played in time, and otherwise shows what the renderer said |
| PollerRuns.AirplayEndsExactly | src/daemon.rs:1562-1589 | the same for AirPlay: stopped exactly when answers cease after the first, failed exactly when none came in time, and otherwise playing or paused as told |
| PollerRuns.StalePollerAsksNoMore | src/daemon.rs:1447-1454 | over every run, a poller whose session is over asks its receiver nothing more |
| DaemonCommands.ConnectAlone | src/daemon.rs:455-631 | a `connect` with no other task in between leaves the new session, its server, its stream and its worker in its own slot and no other, exactly when device, firewall, server and receiver grant it, a Cast receiver at the second try too; and nothing at all otherwise |
| DaemonCommands.PauseAlone | src/daemon.rs:853-899 | a `pause` shows a playing session paused and touches nothing else |
| DaemonCommands.ResumeAlone | src/daemon.rs:901-947 | a `resume` shows a paused session playing and touches nothing else |
| DaemonCommands.SeekRestarts | src/daemon.rs:949-1014 | a `seek` in an ffmpeg stream on DLNA or AirPlay puts a fresh poller in the place of the old one, which was told to stop, and shows buffering, or fails the session and posts its end once if the receiver refuses |
| DaemonCommands.SeekInPlace | src/daemon.rs:970-1014 | any other `seek` changes at most the position shown |
| DaemonCommands.RestreamRestarts | src/daemon.rs:1171-1227 | a `restream` on DLNA or AirPlay restarts on the new server; without one it fails with the pollers told to stop; a receiver that refuses gets the end posted twice |
| DaemonCommands.RestreamCast | src/daemon.rs:1181-1222 | a `restream` on Cast replaces the server and leaves the session, or fails it and posts its end once |
| DaemonCommands.ShutdownHoldsNothing | src/daemon.rs:1411-1429 | over every run, a daemon that has shut down holds nothing and has told every poller to stop |
| DaemonCommands.EventsKeepOrder | src/daemon.rs:1674-1682 | events are handled in the order they were posted, none lost and none twice |
| DaemonCommands.WhoChangesState | src/daemon.rs:623-628 | over every run, the state shown is changed only by a command, from and to the states that are its own, or by a worker of the session shown: a `connect` that ends late never covers up what its worker has shown |
| FrameLimit.HeaderRoundTrip | src/cast.rs:1034-1034 | the big-endian length of a written header is the length |
| FrameLimit.NetworkOrder | src/cast.rs:1034-1034 | the most significant byte of a length comes first |
| FrameLimit.ParseStream | src/cast.rs:986-990 | the parser recovers every frame of every stream of messages |
| FrameLimit.FeedHeader | src/cast.rs:1028-1034 | header bytes may arrive in any pieces |
| FrameLimit.FeedBody | src/cast.rs:1020-1025 | body bytes may arrive in any pieces |
| FrameLimit.FrameBudget.NoteFrame | src/cast.rs:976-982 | saturating count; refuses past 256 frames or, after the first, past the waiting time |
| FrameLimit.FrameLimit.Read | src/cast.rs:1013-1050 | for every buffer, chunk and timeout: what is returned continues the input, the fields stay at the parser's position, at most 256 frames pass since the reset, and it fails exactly when it completes a refused header, for good |
| FrameLimit.FrameLimit.ReadHeader | src/cast.rs:1027-1049 | the header branch, with the exact condition of a refusal |
| FrameLimit.FrameLimit.ReadBody | src/cast.rs:1020-1026 | the body branch never refuses |
| FrameLimit.FrameLimit.Reset | src/cast.rs:970-974 | the budget starts again from the frames delivered so far |
| FrameLimit.OversizedNeverPasses | src/cast.rs:1035-1039 | output without an oversized header ends before the fourth header byte of the first oversized frame |
| FrameLimit.OversizedIsHeldBack | src/cast.rs:1035-1039 | whatever was read, at most three header bytes and no body byte of an oversized frame got out |
| FrameLimit.FittingIsRefusedOnlyForFlood | src/cast.rs:1040-1046 | a stream of fitting messages is refused only with 256 frames since the reset, or too late |
| CastLoop.Loop.constructor | src/cast.rs:688-708 | the handshake's status is published without ending the cast and names the media session |
| CastLoop.Loop.SeekCast | src/cast.rs:1101-1155 | an ffmpeg stream is loaded anew at the start found, with the offset set first; any other is sought |
| CastLoop.Loop.LoadMedia | src/cast.rs:1121-1139 | only an accepted load with an entry changes the media session; the offset is that of the last load asked for |
| CastLoop.Loop.Obey | src/cast.rs:712-837 | each command makes the loop write and ask what `Answer` says, in the mode and with the media session it has (what that is: CastPanel.CommandAsks) |
| CastLoop.Loop.Hear | src/cast.rs:858-871 | a status is published against the session known before it, and adopted only when none was known (what is shown: CastPanel.PanelSince) |
| CastLoop.Loop.Listen | src/cast.rs:844-907 | one receive: resets or counts errors, ends, loses the link or goes on |
| CastLoop.Loop.Poll | src/cast.rs:908-940 | the regular status request, addressed to our media session |
| CastLoop.Loop.Take | src/cast.rs:712-940 | one turn: all queued commands even after a shutdown, then one receive, then the poll |
| CastLoop.Loop.Run | src/cast.rs:703-944 | the whole loop is the fold of its turns; its variables and all it shows are folds of the history (what they come to: CastPanel.PanelSince and RunGoes) |
| CastLoop.OwnSessionStays | src/cast.rs:1127-1132 | a known media session changes only with one of our own answered loads |
| CastLoop.EveryRunStands | src/cast.rs:711-944 | over every run: requests name our media session; the cast ends exactly when an ending event was seen; the link is lost exactly with more than five failures |
| CastLoop.WhyEnded | src/cast.rs:858-895 | over every run, a cast that ended did so on one last event: a failed load, a media error, an idle status with error or finished, or ours cancelled or interrupted |
| CastLoop.OtherSessionEnds | src/cast.rs:1191-1208 | over every run, a status of another media session ends the cast exactly when it says error or finished, never when cancelled or interrupted |
| CastLoop.StatusAgreesWithLoad | src/cast.rs:1133-1136 | a status reporting the time a load asked for shows the position shown for that load |
| CastLoop.ReloadSetsMode | src/cast.rs:788-791 | a reload decides how every seek until the next reload is done |
| CastLoop.SeekLands | src/cast.rs:1115-1139 | a seek of an ffmpeg stream, and a reload, choose a start no later than the position, keyframe search included, and show where they resume; the start as sent is in time exactly when it is rounded down or a whole millisecond lies between |
| CastLoop.ExactSeekLands | src/cast.rs:1116-1122 | an exact seek is sent in time exactly when its position is rounded down |
| CastLoop.ExactSeekIsLate | src/cast.rs:1122-1122 | a seek to 12.0006 seconds loads the stream from 12.001 |
| SeekStart.KeyframeAtOrBefore | src/cast.rs:171-208 | the loop over ffprobe's packets gives the latest keyframe, the position without one, nothing without ffprobe |
| SeekStart.LatestIsBest | src/cast.rs:192-207 | it is the greatest of the keyframe times no later than the position |
| SeekStart.KeyframeIsNotLater | src/cast.rs:171-208 | a keyframe found is never later than the position |
| SeekStart.PacketLine | src/cast.rs:194-205 | a packet line counts, for the time it begins with, exactly when K is among its flags |
| SeekStart.KeyframeFound | src/cast.rs:191-207 | the last keyframe no later than the position, the position without one, nothing without ffprobe |
| SeekStart.SentInTime | src/cast.rs:1122-1122 | when exactly a start printed with three decimals is no later than the position it is for |
| SeekStart.WholeSentInTime | src/cast.rs:1122-1122 | for positions in whole milliseconds it always is |
| SeekStart.SentTwice | src/media_server.rs:755-757 | printing the start again for ffmpeg changes nothing |
| SeekStart.KeyframeMissed | src/cast.rs:1119-1122 | a keyframe at 1371.370667 is sent as a start behind itself |
| SeekStart.KeyframeStartIsSent | src/daemon.rs:231-236 | rounded down first, a keyframe is sent unchanged and is never behind the start |
| SeekStart.StreamStartInTime | src/daemon.rs:126-133 | a DLNA or AirPlay stream begins in time exactly when ffprobe ran for a keyframe seek or the position is rounded down |
| SeekStart.StreamStartIsKeyframe | src/daemon.rs:126-133 | the stream starts at the position for an exact seek or without ffprobe, and otherwise less than a millisecond before the last keyframe no later than it, in whole milliseconds |
| CastLoop.ErrorRunMeaning | src/cast.rs:848-906 | the counter reaches n exactly when n receives failed since some moment with nothing heard, timeouts not counted |
| CastPanel.EventState | src/cast.rs:1174-1208 | one event, exactly: the panel shows a new state when there is a reason for it, and keeps the old one when there is none; the reasons are a status of the first media session that says so, an accepted request of ours, an answered load, a failure |
| CastPanel.ShownSince | src/cast.rs:1158-1220 | over every history, the panel shows what it had at first, or what it came to show for a reason nothing has overruled since |
| CastPanel.PanelSince | src/cast.rs:711-944 | the same over every run of the loop, where an accepted request that is the reason named our own media session |
| CastPanel.PositionFollows | src/cast.rs:1209-1211 | the position shown is exactly where a status, an answered load or an accepted seek puts it, or the old one |
| CastPanel.OffsetOfLastLoad | src/cast.rs:1121-1121 | the stream's offset is the start of the last load, answered or not |
| CastPanel.OwnOfLastLoad | src/cast.rs:1128-1132 | our media session is the one the last answered load named |
| CastPanel.FirstHeardIsOurs | src/cast.rs:866-870 | while none is known, the first session a status names becomes ours |
| CastPanel.CommandAsks | src/cast.rs:712-837 | each command, spelled out: the one request it makes of our own media session, none while that is unknown, and the start, exact or at the last keyframe, of the stream it loads |
| CastPanel.PauseShows | src/cast.rs:715-742 | an accepted pause shows a playing session paused, an accepted resume a paused one playing, and neither touches any other |
| CastPanel.RunGoes | src/cast.rs:711-944 | over every run, turns and their commands are taken up in order; it shuts down exactly when told to and goes quietly exactly when the visible session is no longer its own; the receiver is told to stop exactly after a shutdown or an end |
| CastPanel.TurnHears | src/cast.rs:844-940 | a turn that goes on adds one receive, and one status request when it is due and there is a media session to ask about |
| PlaybackInfo.ParsePlaybackInfo | src/airplay.rs:133-190 | the loop computes the fold over the first 4096 events, for every stream |
| PlaybackInfo.SkipsValue | src/airplay.rs:148-155 | a nested array or dictionary of any depth passes unread |
| PlaybackInfo.TopEntries | src/airplay.rs:156-184 | top-level entries leave the last numbers, or refuse at an error key |
| PlaybackInfo.ParsedIsLookup | src/airplay.rs:133-190 | for every dictionary the reader equals the lookup in the tree within the cap, and gives nothing beyond it |
| PlaybackInfo.CutOffIsLookup | src/airplay.rs:143-190 | a reply cut off after complete entries is answered from those |
| PlaybackInfo.OnlyDictionaries | src/airplay.rs:137-139 | a reply that is no dictionary is refused |
| PlaybackInfo.LastNumberIsLast | src/airplay.rs:177-184 | the lookup is the number at the last position that has one under the name |
| Description.ParseDescription | src/dlna.rs:359-440 | the loop computes the fold over the events |
| Description.OnlyText | src/dlna.rs:386-402 | text is gathered the same however it is split into chunks |
| Description.ServiceStep | src/dlna.rs:418-432 | a service, wherever it stands, counts once with its last type and control URL, unless services inside it count instead |
| Description.ParsedIsHoisted | src/dlna.rs:374-440 | for every tree the reader finds what it says with inner services lifted out |
| Description.HoistedIsFacts | src/dlna.rs:376-432 | lifting inner services out changes nothing exactly for trees without services inside services |
| Description.AgreesExactly | src/dlna.rs:374-440 | the URL base is right for every tree, and each other value exactly when nesting does not change it |
| Description.ParsedIsLookup | src/dlna.rs:374-440 | without nested services: control URLs of the first fitting services, first names outside services, last base |
| Description.NestedServiceIsLost | src/dlna.rs:431-431 | a concrete nested service whose outer fields are lost |
| Description.LocalNameDropsPrefix | src/dlna.rs:343-345 | a namespace prefix is dropped |
| FirewallText.Ipv4RoundTrip | src/firewall.rs:47-53 | a printed address is read back |
| FirewallText.ReceiverIsLan | src/util.rs:117-125 | a receiver is accepted only as the canonical text of a LAN address, and every such text is |
| UfwTuples.ReceiverExactly | src/util.rs:121-125 | a receiver is accepted exactly when, but for whitespace around it, it is the canonical text of a LAN address, and then as that text |
| UfwTuples.LanRanges | src/util.rs:115-119 | 10.0.0.0/8, 172.16.0.0/12, 192.168.0.0/16 and 169.254.0.0/16 |
| FirewallText.ParsedRuleIsValid | src/firewall.rs:43-66 | whatever parses is a rule the daemon could have written |
| FirewallText.LineRoundTrip | src/firewall.rs:43-74 | a written rule is read back as itself, in both forms |
| UfwTuples.LedgerLine | src/firewall.rs:68-74 | a ledger line is the receiver, and for a rule of its own address and port these, in this order |
| UfwTuples.CoversIsWithin | src/firewall.rs:76-78 | a rule covers a cast exactly when it lets in everything the rule for the cast would |
| FirewallText.TupleRead | src/firewall.rs:266-294 | a tuple line matches exactly when its fields do, whatever its comment (what the fields must be: UfwTuples.TupleMeans) |
| UfwTuples.TupleMeans | src/firewall.rs:266-294 | a tuple line counts exactly when ufw would write it for this port, from the receiver to our address, in one of its four forms, with or without /32, whatever the action and the comment; no other protocol, direction, application or routed rule ever does |
| UfwTuples.OursIsFound | src/firewall.rs:266-294 | the tuple ufw writes for a rule of ours counts for that rule and for no other |
| FirewallText.MatchDeterminesRule | src/firewall.rs:286-293 | a line speaks for the traffic of one rule only |
| UserRules.LineReader.ReadLine | src/firewall.rs:244-247 | one line, never more than 64 KiB of it, or the failure of a file that breaks off |
| UserRules.ScanUserRules | src/firewall.rs:239-259 | against the file split into lines: a match is found exactly when the first line that counts for the rule, as UfwTuples.TupleMeans has it, or cannot be read in full counts; none is reported exactly when every line was read and none counts |
| UserRules.FileLinesJoin | src/firewall.rs:244-247 | the split loses nothing and ends lines only at newlines |
| Firewall.Ledger.LedgerRules | src/firewall.rs:99-111 | the rules of the well-formed ledger lines, each of them |
| Firewall.Ledger.WriteLedger | src/firewall.rs:113-115 | the ledger read back holds exactly the rules written |
| Firewall.Ledger.Open | src/firewall.rs:118-179 | ufw is asked for a rule exactly when none read covers it and a complete scan found none; if ufw added it, the ledger as it was read is written back with it, whatever other calls wrote meanwhile, and otherwise theirs stays |
| Firewall.AsksExactly | src/firewall.rs:126-150 | ufw is asked exactly when a complete scan found no rule for the traffic and no recorded rule lets all of it in already |
| Firewall.Ledger.Clear | src/firewall.rs:182-203 | asks to delete exactly the rules read, and writes back those whose deletion failed over whatever other calls wrote; an inactive ufw empties the ledger unasked |
| Firewall.SaysAdded | src/firewall.rs:300-302 | one line of output counts exactly when it is ufw's "Rule added" |
| FirewallRuns.PromptIsScanned | src/firewall.rs:143-163 | over every run, an `open` waits for polkit only since a complete scan found no rule for its traffic |
| FirewallRuns.OnlyOursDeleted | src/firewall.rs:118-203 | over every run, however calls overlap and whatever is answered, what is recorded or asked to be deleted was on the ledger at the start or was added by us after a complete scan |
| FirewallRuns.UsersRuleTaken | src/firewall.rs:118-203 | exactly how a rule of the user's is taken: replaced after being set while the prompt for it was up, or deleted by a `clear` that read a ledger with it |
| FirewallRuns.ReplacedDuringPrompt | src/firewall.rs:135-163 | a run where ufw replaces a rule the user sets during the prompt |
| FirewallRuns.DeletedAfterStaleWrite | src/firewall.rs:126-168 | a run where the stale writing of an `open` lets the next `clear` delete a rule of the user's |
| FirewallRuns.UsersRulesUntouched | src/firewall.rs:118-203 | in every calm run no rule of the user's is changed or deleted |
| FirewallRuns.ForgottenExactly | src/firewall.rs:118-203 | exactly how a rule of ours is forgotten: a list without it is written, or ufw put it in the place of a rule of the user's, and nothing settles it afterwards |
| FirewallRuns.ForgottenByClearing | src/firewall.rs:182-187 | a run that opens a rule and clears with ufw inactive |
| FirewallRuns.ForgottenByOverlap | src/firewall.rs:182-203 | a run with ufw active throughout where a `clear` that overlaps an `open` forgets its rule |
| FirewallRuns.RecordedAgain | src/firewall.rs:126-168 | a run where a stale writing records a forgotten rule again |
| FirewallRuns.ForgottenOnlyWhenInactive | src/firewall.rs:182-187 | in calm runs a rule is forgotten exactly by clearing with ufw inactive, and for good unless the user acts |
| Transcodes.LiveTranscodes.AdmitTranscode | src/media_server.rs:717-732 | the retained queue, the newcomer at its end, and the oldest cancelled beyond two |
| Transcodes.AdmitKeeps | src/media_server.rs:717-732 | the queue stays short, in order of admission, with every live stream in it |
| Transcodes.AtMostTwoLive | src/media_server.rs:717-732 | in every run at most two streams are live and all of them are queued |
| Transcodes.EndsOnlyTheThird | src/media_server.rs:725-731 | an admission ends a live stream exactly when a newer one is live beside the newcomer, and never the newcomer |
| Transcodes.OutlivesOneMore | src/media_server.rs:725-731 | left alone, a stream outlives the admission of one more |
| ByteRange.ParsedRange | src/media_server.rs:654-668 | the two bounds mean what the range asks for, including suffixes and open ends |
| ByteRange.FileResponse | src/media_server.rs:585-652 | for every file and header: the whole file, exactly the bytes asked for with matching headers, or 416 when there are none |
| ByteRange.RangeRoundTrip | src/media_server.rs:654-668 | a range as a client writes it is read as meant |
| ByteRange.NoRange | src/media_server.rs:593-668 | another unit, several ranges, unprintable or non-ASCII characters, no dash, no bound, or bounds the wrong way round are no range |
| ByteRange.ContentRangeRead | src/media_server.rs:634-636 | a client reads back from the header which bytes it got, and of how many |
| ByteRange.ExactlyOne | src/media_server.rs:634-636 | the bounds of a partial reply are determined by the range asked for |
| ByteRange.ConsecutiveRangesJoin | src/media_server.rs:585-652 | the bodies of consecutive ranges that cover the file join to the file |
| Discovery.Merge | src/discovery.rs:247-275 | one device per address found; it is reached over DLNA if any record was, else over Cast, else over AirPlay, by the first such record; it speaks every protocol of its records, and has a name and a model if any had |
| Discovery.BestIsReached | src/discovery.rs:238-245 | whoever stands for the records prefers DLNA to Cast and Cast to AirPlay |
| Discovery.StandsForMore | src/discovery.rs:256-272 | one round of the loop keeps that for one more record |
| Discovery.OrderDoesNotMatter | src/discovery.rs:238-275 | the order of the records changes neither how well the device is reached, nor what it speaks, nor whether it has a name |

## Left out

- TimeText.ParseTimestamp: does not read `inf`, `infinity` and `nan`, which Rust accepts as numbers in a cue timing; `TimeText.Hms` turns them into 0 like any other text, as the program does.
- Floating-point rounding and overflow.
- SubtitleLaws: a bare carriage return, which W3C WebVTT section 4.1 also allows as a line end, does not end a line in the program or here; a document with one at the end of a line is not `WellFormed`. A line of only whitespace ends a cue in the program and here, where WebVTT asks for an empty one.
- SubtitleLaws.ShiftsCompose: for shifts and cue times in whole milliseconds, which is all that subtitle files and the printed start hold.
- SubtitleMeaning.SameScreen: for the same; a cue time between two milliseconds is printed at the nearest, as `SubtitleMeaning.CuesEarlier` says for every time.
- Daemon: ids are unbounded, the 64-bit counter does not wrap.
- Daemon: `connect` refuses bad arguments before it touches any state; that is a no-op here. Position offsets, positions, volume, subtitles and the other displayed fields are one opaque value. The early subtitle write of `set_subtitle` is one write with the last.
- Daemon: a Cast thread writes any state a receiver can cause and ends at any time with or without an event; `CastLoop` says when it does.
- Daemon: an ended Cast session may have no event pending, because the status of the first load is published without looking at the result (src/cast.rs:689).
- DaemonRuns.EndedSessionIsReported: only DLNA and AirPlay, for that reason.
- DaemonRuns.AbortedPollerWritesOnce: counts critical sections; an aborted poller may also still post the event of its last one.
- DaemonCommands: what a command comes to is said for the case that no other task runs in between; what holds in every other case is in `DaemonRuns` and `PollerRuns`.
- UfwTuples.TupleMeans: for fields and comments as ufw writes them, no field starting with `comment=`.
- CastPanel: the panel as long as it shows this session; writes for a session no longer shown are dropped (src/cast.rs:1245-1253), which `DaemonRuns.StaleWorkerIsHarmless` covers.
- CastLoop: the duration of a status, volume and mute, the content URL and subtitle tracks of a load, and wall-clock polling; the shared session appears only as the answer whether it is still ours.
- FrameLimit: writes, which pass through; a poisoned lock of the budget.
- PlaybackInfo: dates, data and other scalar values are one kind; the cap on the reply's bytes.
- Description: joining the URLs found to the base, and the check that they point at the receiver.
- Description.ParsedIsLookup: for services that are not nested; `Description.ParsedIsHoisted` is for every tree.
- Firewall: reading ufw's own configuration file; edits of the ledger file by other programs during a run; failing reads and writes of it; the order of its lines.
- FirewallRuns: a killed daemon; a prompt that timed out is taken to have done nothing, and ufw's honesty is `FirewallRuns.Honest`.
- UserRules: characters are bytes; the lossy decoding of invalid UTF-8.
- Transcodes: the ffmpeg child processes, which appear as cancellations at any moment; a poisoned lock.
- ByteRange: the leading plus sign that Rust's integer parser accepts in a range (`bytes=+0-1`) and RFC 9110, section 14.1.1, does not; it is read here as the program reads it.
- ByteRange: a file that vanishes or shrinks between its size being read and its bytes being sent, the DLNA headers, and the end of the stream at shutdown.
- Discovery: the final sort, the order of alternates, and promoting AirPlay receivers with an open Cast port.
- SeekStart: running ffprobe, whose output is a parameter; `inf` and `nan` packet times; the media server's bound on starts.
- Caps on SSDP replies, query strings, XML escaping, sidecar discovery, codec choice, MIME and language tables, ffmpeg arguments: tables and I/O with only easy members.
- Sockets, TLS, HTTP, SOAP, mDNS, D-Bus and process handling: their answers are parameters.
- Liveness: nothing says that a receiver eventually plays or that a timeout fires.
