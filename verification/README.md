# Verification of the radio rotator and its streaming companions

This project models the parts of the radio software whose correctness rests on state and loops, and
proves what each of them promises over all inputs, runs or interleavings:

* **The playlist rotator** (`RotatorModel`, `RotatorRun`, `RotatorTermination`, `RotatorEndless`,
  `RotatorOnePass`, `RotatorLaws`, `RotatorEndings`, `RotatorRetries`, `RotatorBehind`,
  `RotatorSessions`, `Rotator`, `Timer`, `Schedule`). Folders are walked in an order; each visit offers
  tracks until one is admitted by the spacing limits of executor and title and by the folder's weight.
  `RotatorModel` gives a visit and a turn of the walk as functions from state to state; `Rotator` is the
  object with its cursors, weights, counters and loops, and every method is proved to do what the
  functions say. `RotatorRun` says what a visit does and how a run that ends turns out,
  `RotatorTermination` and `RotatorEndless` when it ends, `RotatorOnePass` what a run without special
  conditions delivers, `RotatorLaws` what is admitted and what a run keeps, `RotatorEndings` and
  `RotatorRetries` how it ends, `RotatorBehind` how far its reasons for giving up reach, and
  `RotatorSessions` what holds over any sequence of `prepare` and `create_playlist` calls.
* **The local log** (`RecordReader`, `ArchiveRotation`): the chunked reader agrees with a parse of the
  whole file, and the delete-and-rename loop is a bounded queue of archives.
* **The hand-over of playlists between threads** (`HandOver`): a state machine over two mutexes, with
  any number of publishers and one consumer.
* **Stream pacing** (`Pacing`) and **ADTS streaming** (`Adts`; Annex 1.A of ISO/IEC 14496-3).
* **The error monitor** (`ErrorMonitor`): its box of messages and its limits on e-mails.
* **Base64** (section 4 of RFC 4648) and **URL splitting** (section 3 of RFC 3986).

`dafny verify dfyconfig.toml` checks everything.

Some results say where the program does less than one might expect. Each has a concrete input, and the
exact condition under which the program does what is expected:

* The rotator gives up although a folder behind the first largest one has a track to deliver
  (`RotatorBehind.GivesUpTooSoonBehind`); this cannot happen if and only if every folder of the order
  has a slot up to the first largest one (`RotatorBehind.GivesUpWellExactly`).
* A run for a length of time never ends on a service folder whose only song has no duration text
  (`RotatorEndless.HourOfNothing`); with records of known lengths every run over an order ends if and
  only if each track of each folder up to the first largest slot takes time
  (`RotatorEndless.EndsExactly`).
* An empty response takes the flag of an unseen list down (`HandOver.StaleAfterEmptyResponse`); the
  consumer is behind with the flag down if and only if that has happened (`HandOver.HandOverFresh`).
* A record without payload can be skipped (`RecordReader.EmptyRecordLost`), exactly when a transfer ends
  on it (`RecordReader.ReadExactly`).
* The stream buffer of 100000 bytes does not hold a chunk of largest frames at 22050 Hz and more
  (`Adts.UnevenLeaves`); a file stays in it if and only if every chunk's bytes fit
  (`Adts.Taac.PlayFile`), and every file of a rate does if and only if the rate is at most 16000 Hz
  (`Adts.SafeRates`).
* With archive numbers of six digits rotation can replace a file still to be kept
  (`ArchiveRotation.CrowdedCollides`), exactly when an archive is to get a greater number than it has
  (`ArchiveRotation.LogDirectory.RecreateFileList`).
* The frame walk never ends on a file whose first header announces no length (`Adts.EndlessFile`), and
  in general exactly when the model's walk says so (`Adts.EndlessExactly`).
* The mail volume, whatever it is, does not bound the boxes of the error monitor
  (`ErrorMonitor.BoxOverVolume`); it does over a run if and only if every message that is kept fits when
  it comes (`ErrorMonitor.VolumeExactly`).
* The lead exceeds target plus lag on a first chunk when these are shorter than an even period
  (`Pacing.LeadBelowTarget`).
* A URL without a path whose query holds a slash is not split (`UrlParser.ComposeParse`).

Ghost members of the objects (`origin`, `tally`, `mails`) record where an entry, a second or a mail
comes from; the program has no such fields.

## Model

| member | source | states |
|---|---|---|
| RotatorObject.Rotator.TitleStatisticsInHistory | rotator/rotator_ctrl.cpp:1091-1134 | the title passes exactly when every copy of it lies at least the title limit back; the weight reported is that of its newest copy, 0 if it was never heard |
| RotatorObject.Rotator.FindRecordInHistory | rotator/rotator_ctrl.cpp:1037-1089 | admits exactly when the executor is new to the history, or all his entries, all copies of the title and the newest copy's weight leave room; the backward search needs only the newest match |
| RotatorLaws.NewExecutorAccepted | rotator/rotator_ctrl.cpp:1051-1086 | a track of an executor who occurs nowhere in the history is accepted with any title, at every weight, under all rules |
| RotatorLaws.NewTitleAccepted | rotator/rotator_ctrl.cpp:1066-1082 | of a known executor a title never heard is accepted if and only if as many entries as the executor limit lie behind the executor's newest one |
| RotatorLaws.KnownTitleAccepted | rotator/rotator_ctrl.cpp:1037-1134 | of a known executor a known title is accepted if and only if as many entries as the limits ask lie behind the newest one of the executor and the newest copy of the title, whoever played it, and that copy is no heavier than the folder |
| RotatorLaws.NamelessRefused | rotator/rotator_ctrl.cpp:1324-1327 | without the names of an executor and a title nothing is accepted |
| RotatorLaws.ServiceAccepted | rotator/rotator_ctrl.cpp:1360-1361 | in a service folder nothing else is asked |
| RotatorObject.Rotator.AddToPlaylist | rotator/rotator_ctrl.cpp:382-451 | list, history and clock grow by the same track, the history entry one heavier than the folder, and the retry counter restarts |
| RotatorObject.Rotator.FindRecordInPlaylist | rotator/rotator_ctrl.cpp:1329-1373 | a track is added exactly when the history before it accepts it at the folder's weight, and else nothing changes |
| RotatorObject.Rotator.GlobalAnalize | rotator/rotator_ctrl.cpp:1375-1415 | offers the folder's next track: wraps and adds weight at the end, moves the cursor, ends the visit on an added track, a non-record or the folder's end |
| RotatorObject.Rotator.VisitFolder | rotator/rotator_ctrl.cpp:1512-1513 | the inner loop ends and does what the recursive visit does |
| RotatorObject.Rotator.VisitSlot | rotator/rotator_ctrl.cpp:1512-1518 | a visit keeps the rotator valid, the law of its history included, and the test behind it is the completion test of the new state |
| RotatorObject.Rotator.PlaylistConstructionCompleted | rotator/rotator_ctrl.cpp:319-332 | complete exactly at the wanted count or the wanted length |
| RotatorObject.Rotator.PlaylistSizeIncrease | rotator/rotator_ctrl.cpp:334-354 | growth is written down and restarts the counter; otherwise a retry is counted, and the one too many ends the run with the limits the list could not hold |
| RotatorObject.GiveUpCode | rotator/rotator_ctrl.cpp:347-351 | after giving up the error is 0 to 3, its bits telling which limits a list of this size could not hold; any of them blocks later calls |
| RotatorObject.Rotator.AppendSlot | rotator/rotator_ctrl.cpp:806-850 | a slot more, and the recorded maximum is again the size of the order's largest folder |
| RotatorObject.Rotator.SearchFolders | rotator/rotator_ctrl.cpp:624-692 | exactly the folders with tracks are taken, at the first track with weight 1, and their names are kept sorted, as the map keeps its keys |
| RotatorObject.Rotator.CalcStatisticsInHistory | rotator/rotator_ctrl.cpp:754-784 | the number of titles of the given history that match |
| RotatorObject.Rotator.SearchHistory | rotator/rotator_ctrl.cpp:694-752 | the given history in order, each entry weighted by its matches |
| RotatorObject.FirstWeights | rotator/rotator_ctrl.cpp:754-784 | copies of one title in the given history weigh the same, at least 1 |
| RotatorObject.MatchesBeginnings | rotator/rotator_ctrl.cpp:1024-1029 | a title matches those that begin it, and empty ones match and are matched by all |
| RotatorObject.CountMatches | rotator/rotator_ctrl.cpp:754-784 | the weight of a given title is the number of titles of the history that match in this sense |
| RotatorObject.Rotator.SearchOrder | rotator/rotator_ctrl.cpp:786-870 | the order is the given one without unknown names, or all folders by sorted name, and the recorded maximum is the size of its largest folder |
| RotatorObject.Rotator.RewindFolders | rotator/rotator_ctrl.cpp:194-230 | every cursor returns to the first track, weights and lists stay |
| RotatorObject.Rotator.Prepare | rotator/rotator_ctrl.cpp:194-230 | false exactly while an error stands; else a finished rotator is rewound, its clock at zero, and the order comes out as it was |
| RotatorObject.Rotator.Reorder | rotator/rotator_ctrl.cpp:786-870 | reading the order again over the same folders changes nothing |
| RotatorObject.Rotator.constructor | rotator/rotator_ctrl.cpp:105-187 | the rotator read from its input is valid and has an empty list |
| RotatorObject.Rotator.FinishRound | rotator/rotator_ctrl.cpp:1527-1541 | the end of a round gives up or starts over, as the round function says |
| RotatorObject.Rotator.TurnAt | rotator/rotator_ctrl.cpp:1499-1541 | one turn of the walk is one step of the run |
| RotatorObject.Rotator.AnaliseFoldersByOrder | rotator/rotator_ctrl.cpp:1484-1542 | whenever the run ends at all, the walk does, with list, history, cursors, clock and error of the run's outcome |
| RotatorObject.Rotator.CreatePlaylist | rotator/rotator_ctrl.cpp:1544-1571 | whenever the run begun from nothing on the present history ends at all, the list is that of its outcome; nothing is added while an error stands or without folders |
| RotatorRun.OfferDone | rotator/rotator_ctrl.cpp:1375-1415 | an offer that ends a visit adds at most one track, and if none, the folder is at its end with the rest refused |
| RotatorRun.VisitEffect | rotator/rotator_ctrl.cpp:1329-1415 | a visit adds at most one track, the last it came to, and refuses all before it; it moves only its own folder, wraps it exactly when it began at its end, and if barren has come to the folder's end |
| RotatorRun.VisitEndsAt | rotator/rotator_ctrl.cpp:1329-1415 | a visit ends at the first track from the cursor on that is no record or is accepted, or at the folder's end; its whole effect is that track on list, history and clock and the cursor behind it |
| RotatorRun.LargestSlotStays | rotator/rotator_ctrl.cpp:1375-1390 | no visit changes which slot is the first of the largest size |
| RotatorRun.TurnKeeps | rotator/rotator_ctrl.cpp:1499-1541 | every turn keeps the folders' lists, the order and the bounds of the counters |
| RotatorTermination.AddedCloser | rotator/rotator_ctrl.cpp:319-332 | an added track brings a bounded run closer to its target |
| RotatorTermination.StepOn | rotator/rotator_ctrl.cpp:1375-1390 | a turn within a round moves the largest folder's cursor on or comes closer to its slot |
| RotatorTermination.TurnLower | rotator/rotator_ctrl.cpp:1484-1542 | every turn that does not stop the run lowers the measure: target, growth not yet written down, retries left, way to the next wrap |
| RotatorTermination.BoundedEnds | rotator/rotator_ctrl.cpp:1484-1542 | a run without special conditions, for a count, or for a length with every playable track of the order taking time, ends |
| RotatorTermination.LengthEnds | rotator/rotator_ctrl.cpp:1484-1542 | a run for a length already ends when the playable tracks of the folders up to the first largest slot take time, none of the order takes time back, and the largest folder holds records |
| RotatorEndless.FedForEver | rotator/rotator_ctrl.cpp:1499-1541 | a run that a near service folder feeds with a track that takes no time is still going after any number of turns |
| RotatorEndless.HourOfNothing | rotator/rotator_ctrl.cpp:1499-1541 | one service folder with one song of unknown length, an hour wanted: the run never ends |
| RotatorEndless.EndsExactly | rotator/rotator_ctrl.cpp:1484-1542 | over a given order with records of given lengths, none negative, every run begun from nothing for a wanted length ends if and only if each track of each folder with a slot up to the first largest one takes time; else already a new rotator never returns, for some choice of playable tracks |
| RotatorEndless.NoTargetFails | rotator/rotator_ctrl.cpp:1484-1542 | with a negative track count and no length no order is safe: for all lengths some new rotator never returns |
| RotatorRun.FinishOnce | rotator/rotator_ctrl.cpp:1499-1541 | how a run ends and after how many turns does not depend on the time it is given |
| RotatorOnePass.OnePass | rotator/rotator_ctrl.cpp:1525-1541 | without special conditions a run always ends; begun with the largest folders at their first track it ends, unless a limit completes it, at a largest folder now one heavier, each track of which was placed or refused at its first weight |
| RotatorRun.RunSteps | rotator/rotator_ctrl.cpp:1499-1541 | a run's outcome is that of its next turn, and fewer turns are left |
| RotatorLaws.ExecutorSpacing | rotator/rotator_ctrl.cpp:1037-1089 | between an admitted entry and any earlier one of its executor lie at least as many entries as the executor limit |
| RotatorLaws.PairSpacing | rotator/rotator_ctrl.cpp:1068-1134 | between two entries of one executor and title lie as many as the stricter of the two limits, though the title check runs only behind the executor check |
| RotatorLaws.NextCopyHeavier | rotator/rotator_ctrl.cpp:1072-1080 | an admitted copy outweighs the newest copy before it |
| RotatorLaws.WeightsIncrease | rotator/rotator_ctrl.cpp:1072-1080 | the admitted copies of a title with one executor, absent from service folders, have strictly increasing weights |
| RotatorLaws.OncePerPass | rotator/rotator_ctrl.cpp:1384-1388 | one pass over a folder never places such a title twice, even if it is listed twice |
| RotatorLaws.JustifiedGrows | rotator/rotator_ctrl.cpp:382-431 | adding an accepted track keeps the law that every ruled entry was admitted by the history before it |
| RotatorLaws.VisitGrows | rotator/rotator_ctrl.cpp:382-451 | a visit appends the same tracks to list and history and exactly their length to the clock |
| RotatorLaws.RunConserves | rotator/rotator_ctrl.cpp:382-451 | over a whole run the history is the old one followed by the traces of the new tracks in order, and the clock grows by exactly their lengths |
| RotatorEndings.RunStops | rotator/rotator_ctrl.cpp:319-332 | a run never exceeds the wanted count, and overshoots a wanted length by less than its last track |
| RotatorEndings.FreshCount | rotator/rotator_ctrl.cpp:319-332 | a run wanted by count completes exactly when it has that count |
| RotatorEndings.ReasonTrue | rotator/rotator_ctrl.cpp:1512-1541 | a run that ends as completed is complete, one that gives up has used all retries, one that ends at a wrap had no special conditions |
| RotatorEndings.BarrenRaises | rotator/rotator_ctrl.cpp:1375-1415 | a barren visit brings its folder one level closer to refused as a whole and no folder back |
| RotatorEndings.RoundsTurn | rotator/rotator_ctrl.cpp:1499-1541 | from turn to turn each barren round lifts every slot up to the first largest one by a level |
| RotatorEndings.GivingUpJustified | rotator/rotator_ctrl.cpp:334-354 | when a run gives up, every folder up to and including the first largest one has been walked to its end and none of its tracks is acceptable to the history at the folder's weight |
| RotatorEndings.FreshGivingUp | rotator/rotator_ctrl.cpp:1544-1571 | the same for every list begun from nothing |
| RotatorEndings.RefusedBelow | rotator/rotator_ctrl.cpp:1072-1080 | what is refused at one weight was refused at every lower one, so also in the earlier rounds |
| RotatorRetries.FourRounds | rotator/rotator_ctrl.cpp:334-354 | a run that no longer gets behind its first largest folder gives up in its fourth barren round: the folder is then four heavier |
| RotatorRetries.SixIsTooHeavy | rotator/rotator_ctrl.cpp:334-354 | one folder with one song at weight 1 and one track wanted: the song is delivered when its newest copy in the history weighs at most 5, and the run gives up with an empty list when it weighs 6 or more |
| RotatorBehind.GivingUpEverywhere | rotator/rotator_ctrl.cpp:334-354 | when every folder of the order has a slot up to the first largest one, giving up leaves every folder exhausted: walked to its end, with no acceptable track |
| RotatorBehind.GivesUpWellExactly | rotator/rotator_ctrl.cpp:1527-1541 | that condition on the order is exact: it holds if and only if giving up is justified for all folders in every run begun from nothing; else already a new rotator gives up, for some tracks, history and rules, although a folder behind the slot holds a track acceptable at its present weight |
| RotatorBehind.TrappedGivesUp | rotator/rotator_ctrl.cpp:1512-1541 | once the first largest folder is at its end and it and the folders before it are refused at every weight, the run gives up without looking at any other folder |
| RotatorBehind.GivesUpTooSoonBehind | rotator/rotator_ctrl.cpp:1527-1541 | a run with four of five tracks wanting that gives up although the next track of a folder behind the slot, never offered, is acceptable at its present weight |
| RotatorRun.OutcomeKeeps | rotator/rotator_ctrl.cpp:1484-1542 | a run leaves folders and order fit for the next one |
| RotatorSessions.CallsLawful | rotator/rotator_ctrl.cpp:1544-1571 | over any calls of prepare and create_playlist the history only grows and every ruled entry stays justified |
| RotatorSessions.SpacingForEver | rotator/rotator_ctrl.cpp:1037-1089 | executor and pair spacing over the given history and all lists ever made together |
| RotatorSessions.OncePerPassForEver | rotator/rotator_ctrl.cpp:1072-1080 | the weight law over all lists ever made: a folder places a title of one executor again only at a greater weight |
| PlayClock.Timer.constructor | rotator/obj_timer.h:29-35 | one hour of interval, an empty list, a day as the wanted length unless one is given |
| PlayClock.Timer.GetSeconds | rotator/obj_timer.h:111-133 | of a text hh:mm:ss 3600 hh + 60 mm + ss, the default if that is zero or there is no text |
| PlayClock.ClockSeconds | rotator/obj_timer.h:111-133 | three numbers with any signs and leading zeros, parted by colons, count 3600, 60 and one second each |
| PlayClock.ClockWorth | rotator/obj_timer.h:131-132 | a text is worth these seconds, and the default if and only if they come to zero |
| PlayClock.DefaultTrack | rotator/obj_timer.h:22 | the default track length is 180 seconds |
| PlayClock.Timer.RemainedInterval | rotator/obj_timer.h:41 | the interval shrinks by what the text is worth |
| PlayClock.Timer.AppendPlaylistDuration | rotator/obj_timer.h:45-51 | the list's length grows by what the text is worth, and not at all without a text |
| PlayClock.Timer.DefinePlaylistDuration | rotator/obj_timer.h:73-80 | the sum of list length and remaining interval grows by the seconds of the slot's first hour, whatever the time of day |
| Schedule.TakeOnTime | rotator/rotator_ctrl.cpp:441-449 | a track keeps the clock on time, and a slot switch adds at most one longest track to the overrun |
| Schedule.ScheduleDrift | rotator/rotator_ctrl.cpp:990-1016 | over any run of tracks until the last slot is left: list length plus remaining interval is the end of the slot plus the overrun less the unmeasured tracks, and the overrun is at most the switches times the longest track |
| Schedule.SlotsInTurn | rotator/rotator_ctrl.cpp:990-1016 | the slots come in turn, with one switch to none behind the last and then the first again; each begins with the time up to the next one's hour, the last with that up to midnight |
| Schedule.Scheduler.SearchSchedule | rotator/rotator_ctrl.cpp:946-973 | finds the slot of the present hour and puts the clock on time; before the first slot of the day nothing is chosen |
| Schedule.Scheduler.CreateScheduleOrder | rotator/rotator_ctrl.cpp:990-1016 | switches to the next slot, or behind the last one to none, and restarts the interval with its length |
| Schedule.Scheduler.AddDuration | rotator/rotator_ctrl.cpp:441-449 | the clock's part of adding a track is the step of the drift law |
| RecordReader.ParseEncoded | logger/file.cpp:646-669 | a file of written records parses into exactly them, to its end |
| RecordReader.EncodeLayout | logger/file.cpp:612-624 | a record is its length in two bytes, the low one first, and its payload |
| RecordReader.FlatParse | logger/file.cpp:612-629 | the records of a parse put together are exactly the part of the file it covers |
| RecordReader.CutLoses | logger/file.cpp:646-669 | a cut at a record boundary loses one record if the record before it is empty, and none else |
| RecordReader.CutParse | logger/file.cpp:612-629 | a parse may be cut at a record boundary if and only if no empty record ends there |
| RecordReader.ReadExactly | logger/file.cpp:580-669 | of any file the reader yields all records but one for each transfer that ends on an empty record; so it agrees with the whole-file parse if and only if no transfer does |
| RecordReader.NothingLost | logger/file.cpp:612-629 | without empty records no transfer does |
| RecordReader.EmptyRecordLost | logger/file.cpp:646-669 | of a file of two empty records the reader itself yields none, where the parse has the first |
| RecordReader.LocalFile.ScanRecords | logger/file.cpp:612-624 | the scan stops at a record boundary behind which no whole record follows |
| RecordReader.TakesSome | logger/file.cpp:580-635 | a transfer that can hold a largest record takes something exactly when a whole record follows |
| RecordReader.LocalFile.GetNextBuffer | logger/file.cpp:580-635 | false exactly when no whole record follows; else the buffer holds the whole records of one transfer, and the position behind them is again a boundary |
| RecordReader.LocalFile.Getlocalfilebuffer | logger/file.cpp:646-669 | hands out the first record of what is pending and leaves the rest; none exactly when no record is pending |
| RecordReader.LocalFile.Drain | logger/file.cpp:646-669 | draining ends and yields the parse of what was pending |
| RecordReader.LocalFile.ReadAll | logger/file.cpp:580-669 | on any file, filling and draining ends behind the last whole record, and yields the parse of the file if and only if no transfer ends on an empty record |
| RecordReader.ReadBack | logger/file.cpp:580-669 | what was written as records comes back record by record, whatever the transfer size |
| ArchiveRotation.ArchivesSort | logger/file.cpp:278-298 | archive names below 100000 sort by number |
| ArchiveRotation.LiveSortsLast | logger/file.cpp:278 | the live file sorts behind them when its extension begins behind the digits |
| ArchiveRotation.ListingNumbered | logger/file.cpp:278 | so the listing by name is by number, the live file last |
| ArchiveRotation.NumberedClear | logger/file.cpp:288-298 | in a listing by number no archive is to get a greater number than it has |
| ArchiveRotation.StepDeletes | logger/file.cpp:291-295 | deleting an old archive touches no file still to be kept |
| ArchiveRotation.StepRenames | logger/file.cpp:296-304 | when no archive is to get a greater number than it has, renaming replaces no file still to be kept and extends the gapless head; else the gap it leaves stays |
| ArchiveRotation.Rotated | logger/file.cpp:288-304 | the archives are gapless and hold the last contents in listing order if and only if no archive was to get a greater number than it had |
| ArchiveRotation.LogDirectory.RecreateFileList | logger/file.cpp:278-308 | over the sorted listing of any directory: archives 0, 1, .. without a gap, holding the last contents in the order of the names, if and only if no archive is to get a greater number than it has; with numbers of five digits and an extension behind the digits always, the live file last |
| ArchiveRotation.CrowdedCollides | logger/file.cpp:278-308 | a directory of 10004 files with one number of six digits where it is not so |
| ArchiveRotation.LogDirectory.Rollover | logger/file.cpp:263-312 | a full live file joins the queue of archives, whose oldest one leaves when there are too many |
| ArchiveRotation.LogDirectory.RolloverAll | logger/file.cpp:263-312 | over any run of rotations the directory is a queue that keeps its last elements |
| ArchiveRotation.LastLast | logger/file.cpp:288 | trimming after every step is the same as trimming once |
| HandOver.RunKeeps | accordion_V10.X/parameters.cpp:174-309 | the locks, the half-written list and the copy stay consistent in every state of every interleaving |
| HandOver.HandOverSafe | accordion_V10.X/parameters.cpp:298-309 | every list the consumer ever copied is one complete published list, and the copy he leaves with is the latest |
| HandOver.HandOverFresh | accordion_V10.X/parameters.cpp:275-309 | after the first load, outside the copying, with the flag down: the consumer is behind if and only if an empty response has taken the flag down since the last publication and no load followed; else the last copied list is the published one |
| HandOver.AskingTells | accordion_V10.X/parameters.cpp:275-284 | in every run asking tells exactly whether the flag is up, and the consumer goes on to load the list in just that case; after a first load it is told whenever it is behind, unless an empty response took the flag down |
| HandOver.StaleAfterEmptyResponse | accordion_V10.X/parameters.cpp:159-171 | a run in which the unlocked reset leaves the consumer with an old list and no flag |
| HandOver.NoDeadlock | accordion_V10.X/loggermutex.h:19-26 | whenever a thread is busy, some thread can go on |
| HandOver.StepWorks | accordion_V10.X/loggermutex.h:19-26 | every step of a thread lessens the work of the operations in progress |
| HandOver.CanFinish | accordion_V10.X/loggermutex.h:19-26 | from every reachable state all operations in progress can be brought to their end without a new one |
| Pacing.PlayTime.Timing | accordion_V10.X/playlist.cpp:405-490 | measures lead and lag, and sleeps to the end of a short, even or long period; after the last chunk to the end of the track, two seconds at most when more than three are left |
| Pacing.SendLoop | accordion_V10.X/playlist.cpp:370-379 | every turn begins exactly when the one before has lagged, slept as asked and overslept |
| Pacing.SendTrack | accordion_V10.X/playlist.cpp:370-444 | a track as it is sent keeps the bound on its lead, and undisturbed it is in the band from the turn on that its first lead decides |
| Pacing.LeadBound | accordion_V10.X/playlist.cpp:412-444 | the lead never exceeds one chunk, or target plus lag plus what a chunk is longer than the even period; of the lag no more than an even period counts |
| Pacing.LeadBelowTarget | accordion_V10.X/playlist.cpp:412-444 | the lead never exceeds target plus lag plus (c - 975) on any track, if and only if target and lag together make up an even period |
| Pacing.ExactTrack | accordion_V10.X/playlist.cpp:412-444 | without lag and with exact sleeps the lead of a track follows the step function |
| Pacing.UndisturbedGap | accordion_V10.X/playlist.cpp:437-442 | undisturbed turns follow one another at 900, 1100 or 975 milliseconds as the lead is more than 100 below the target, above it, or between |
| Pacing.PlaysSeconds | accordion_V10.X/playlist.cpp:416-418 | frames that hold so many seconds of samples play a thousand milliseconds for each |
| Pacing.AacChunk | accordion_V10.X/aac.cpp:299 | a chunk of AAC frames plays between 975 and 1100 milliseconds at every rate, as the bounds ask |
| Pacing.BandStays | accordion_V10.X/playlist.cpp:437-442 | once in the band around the target the lead stays there |
| Pacing.BandReached | accordion_V10.X/playlist.cpp:437-442 | from any lead so many steps as its distance from the band asks bring it there, and it never leaves again |
| Pacing.TrackInBand | accordion_V10.X/playlist.cpp:412-444 | on every track without lags, with exact sleeps and all chunks sent, the lead of every turn is in the band from the turn on that the first lead decides |
| Adts.StreamHeader | accordion_V10.X/aac.cpp:133-172 | an accepted frame is longer than its header and at most 5000 bytes |
| Adts.LengthField | accordion_V10.X/aac.cpp:81-84 | the frame length is the field of thirteen bits that the program's masks and shifts cut out of three bytes |
| Adts.SyncField | accordion_V10.X/aac.cpp:94-99 | the sync word is the twelve bits that the program puts together of two bytes |
| Adts.HeaderDecides | accordion_V10.X/aac.cpp:133-172 | a header with any version, layer, protection, private bit, channels, marks and buffer fullness is good for streaming if and only if its profile is not 3, its rate one of the thirteen and its length 8 to 5000, which is then the frame's |
| Adts.HeaderOf | accordion_V10.X/aac.cpp:133-172 | every seven bytes that begin with twelve set bits are a header of some fields, and no others are good |
| Adts.SamplingBits | accordion_V10.X/aac.cpp:110 | the same for the sampling index |
| Adts.StartBits | accordion_V10.X/aac.cpp:94-108 | the same for sync word and profile |
| Adts.FramesOfFlat | accordion_V10.X/aac.cpp:244-275 | a concatenation of valid frames is a run of whole frames, as many as were put in |
| Adts.EndKeepsFrames | accordion_V10.X/aac.cpp:345-379 | a chunk taken from a run of whole frames leaves one, and the counts add up |
| Adts.ChunksOfFrames | accordion_V10.X/aac.cpp:334-384 | the chunks of a run of whole frames put together are the file |
| Adts.ChunksAtMost | accordion_V10.X/aac.cpp:334-384 | of no file is more sent than it holds, and all of it only of a run of whole frames |
| Adts.SentWhole | accordion_V10.X/aac.cpp:210-384 | a file that is played is sent as it is if and only if it is a run of whole valid frames |
| Adts.NextCopied | accordion_V10.X/aac.cpp:345-379 | what the frame loop copies includes the next frame, whole or cut off |
| Adts.SafeRates | accordion_V10.X/playlist.cpp:23 | every file of a rate stays in the player's buffer of 100000 bytes if and only if the rate is at most 16000 Hz |
| Adts.UnevenLeaves | accordion_V10.X/playlist.cpp:248 | for every higher rate a file of whole valid frames, its bit rate in range, whose first chunk does not fit |
| Adts.TakenWhole | accordion_V10.X/aac.cpp:345-379 | what can be taken from any file consists of whole frames only |
| Adts.WholeTaken | accordion_V10.X/aac.cpp:345-379 | whole frames up to the number wanted or the first gap are all that can be taken |
| Adts.WalkOfFrames | accordion_V10.X/aac.cpp:244-275 | the walk reaches the end of a run of whole frames and counts them |
| Adts.EndlessExactly | accordion_V10.X/aac.cpp:244-275 | the walk is endless if and only if its loop is still going after any number of headers |
| Adts.ZeroLength | accordion_V10.X/aac.cpp:154-171 | after a first header that announces no length it is |
| Adts.EndlessFile | accordion_V10.X/aac.cpp:244-275 | a file of ten bytes on which it is |
| Adts.WalkAgainstStream | accordion_V10.X/aac.cpp:244-275 | of a file the walk accepts the streamer finds at most the frames counted, and all of them exactly when the file is a run of whole valid frames |
| Adts.ChunkDuration | accordion_V10.X/aac.cpp:299 | for every rate of the table a chunk lasts between 975 and 1100 milliseconds |
| Adts.ChunkNearest | accordion_V10.X/aac.cpp:299 | a chunk is the rate by 1024, rounded to the nearest number of frames, halves up |
| Adts.BitRateRange | accordion_V10.X/aac.cpp:283-313 | a file is in range if and only if its bits by its playing time are 32 to 320 kilobits a second |
| Adts.Taac.SeekTo1Frame | accordion_V10.X/aac.cpp:174-208 | finds the first sync word with ten bytes from it on within the first 50000, if and only if there is one, and goes back to the start |
| Adts.Taac.CountFrames | accordion_V10.X/aac.cpp:244-275 | the loop from header to header, on any file on which it ends |
| Adts.Taac.WalkFrames | accordion_V10.X/aac.cpp:210-321 | accepts exactly the files of ten bytes and more whose headers lead to the end at a bit rate in range, and sets frame count and chunk size |
| Adts.Taac.CopyFrame | accordion_V10.X/aac.cpp:345-379 | the next frame follows in the buffer exactly when a whole valid one follows in the file and what is copied of it fits |
| Adts.Taac.TakeFrames | accordion_V10.X/aac.cpp:345-379 | the loop stays in a buffer of any size exactly when all bytes it copies fit, a cut-off last frame included, and then has taken the whole frames up to the number wanted or the first gap |
| Adts.Taac.GetFrames | accordion_V10.X/aac.cpp:334-384 | on any file and with any buffer: the copying stays in the buffer exactly when the chunk's bytes fit, and then the chunk is whole frames only, at most the chunk size, and the bytes are the file's |
| Adts.Taac.StartPlay | accordion_V10.X/aac.cpp:322-332 | playing begins at the first byte with no frame sent |
| Adts.Taac.PlayAll | accordion_V10.X/aac.cpp:334-384 | on any file that begins with a sync word, sending ends, and stays in the buffer exactly when every chunk fits |
| Adts.Taac.PlayFile | accordion_V10.X/playlist.cpp:248-383 | a file from its walk to its last chunk through the buffer of 100000 bytes: it stays in bounds and is sent as it is if and only if every chunk fits and the file is a run of whole valid frames |
| Adts.StreamBack | accordion_V10.X/playlist.cpp:248-383 | whatever valid frames a file is made of, it is played exactly for its bit rate, and when every chunk fits it is sent unchanged |
| ErrorMonitor.BoxRight | logger/errormonitor.cpp:185-217 | in every run the size field is the total length of the box, and the box is a suffix of the messages accepted since the last e-mail or the record's creation |
| ErrorMonitor.BoxAfter | logger/errormonitor.cpp:185-213 | an error above the level joins its domain's box, which gives up its oldest message if and only if all of them would exceed the volume; other domains' boxes stay |
| ErrorMonitor.Ignored | logger/errormonitor.cpp:159-161 | errors of number zero and those up to the level leave no trace |
| ErrorMonitor.MailCarriesNewest | logger/errormonitor.cpp:199-211 | a mail carries the newest of these messages, the one that set it off last |
| ErrorMonitor.BoxOverVolume | logger/errormonitor.cpp:186-197 | for every volume of two and more a run of three messages whose box comes to twice the volume less one |
| ErrorMonitor.BoxInVolume | logger/errormonitor.cpp:172-217 | after an accepted error that sends no mail, on a known domain or a new one, the box is within the mail volume exactly when the message fits into the room left, or into that and the oldest message's place |
| ErrorMonitor.VolumeExactly | logger/errormonitor.cpp:157-220 | over a whole run the volume bounds all boxes if and only if every message that is kept fits when it comes |
| ErrorMonitor.MailsSpaced | logger/errormonitor.cpp:244-301 | two e-mails of one domain are at least the smaller of the two timeouts apart |
| ErrorMonitor.FirstMail | logger/errormonitor.cpp:227-231 | the first e-mail of a record goes out exactly on the accepted error behind the threshold |
| ErrorMonitor.LaterMail | logger/errormonitor.cpp:227-263 | after it the threshold no longer counts: a record mails exactly on the accepted errors for which the e-mail timeout has gone since its last e-mail |
| ErrorMonitor.ResetDrops | logger/errormonitor.cpp:265-301 | a reset drops exactly the records whose last e-mail is the reset timeout back or more |
| ErrorMonitor.Monitor.OnAddError | logger/errormonitor.cpp:157-220 | one accepted error changes records and mails as one event of the run |
| ErrorMonitor.Monitor.ExceededResetTimeout | logger/errormonitor.cpp:265-301 | exactly the records whose last e-mail is long past are dropped |
| Base64.CharIsTable | accordion_V10.X/base64.cpp:9-12 | a six-bit value stands for the character of the standard's table at that place |
| Base64.FindIsPlace | accordion_V10.X/base64.cpp:9-17 | exactly the table's characters are decoded, each to its place in the table |
| Base64.FindChar | accordion_V10.X/base64.cpp:9-17 | the table search finds every six-bit value's character again |
| Base64.Encode | accordion_V10.X/base64.cpp:19-60 | the output has four characters for every three bytes begun |
| Base64.EncodesBits | accordion_V10.X/base64.cpp:19-60 | character k of an encoding is the table's for bits 6k to 6k + 5 of the input, padded with zero bits, and an equals sign behind them |
| Base64.DecodesBits | accordion_V10.X/base64.cpp:62-101 | of any text the leading characters of the table are decoded; byte k is bits 8k to 8k + 7 of their places, and bits that fill no byte are dropped |
| Base64.TailBack | accordion_V10.X/base64.cpp:41-54 | of an incomplete group the decoder sees exactly the characters before the pads |
| Base64.GroupBack | accordion_V10.X/base64.cpp:84-97 | a group comes back, also an incomplete one whose missing places hold the result of a failed search |
| Base64.RoundTrip | accordion_V10.X/base64.cpp:19-101 | decoding an encoding gives the bytes back, for every byte string |
| Base64.Base64Encode | accordion_V10.X/base64.cpp:19-60 | the byte loop with its two buffers computes the encoding |
| Base64.Base64Decode | accordion_V10.X/base64.cpp:62-101 | the character loop computes the decoding, up to the first pad or foreign character |
| UrlParser.Turl.Parse | accordion_V10.X/url.cpp:138-200 | the search for delimiters splits exactly the texts whose delimiters stand in order, into the pieces between them |
| UrlParser.ComposeParse | accordion_V10.X/url.cpp:138-200 | a URL composed of protocol, host, optional port, path and query is split into these; without a path and with a slash in the query it is not split at all |
| UrlParser.ComposePlainParse | accordion_V10.X/url.cpp:138-200 | the same without a protocol; the text is taken for one with a protocol if and only if it has no port and the first colon behind the host is followed by two slashes and something more |
| CText.AtoiText | rotator/obj_timer.h:116-128 | blanks, a sign, a number with leading zeros and anything that is no digit read as the signed number |
| CText.AtoiDecimal | accordion_V10.X/url.cpp:187 | reading a printed number gives the number |

## Left out

- RotatorObject.Rotator.CreatePlaylist: is stated for runs that end, as it does not return from others; `RotatorTermination.BoundedEnds`, `RotatorTermination.LengthEnds`, `RotatorEndless.EndsExactly` and `RotatorEndless.NoTargetFails` say which do.
- RotatorObject.Rotator.constructor: folders' own rules are not read, because every folder has the common ones (rotator/rotator_ctrl.cpp:509-514), and track lists and history come as sequences of texts, because the Zend tables behind them are not part of this model.
- Adts.Taac.CountFrames: is stated, with the walk and the playing of whole files, for files on which the walk ends; it does not return from others (`Adts.EndlessExactly`).
- Pacing.PlayTime.Timing: times are reals, so that rounding to whole milliseconds and float error are not modelled, nor is the wrap-around of the unsigned difference `900 - send_lag`, which the signed result absorbs for lags below 2^31.
- UrlParser.Turl.Parse: reports `ok` as false where the program builds a string from a range that runs backwards; it starts from freshly initialised fields, as `set_url_string` leaves them.
- Adts.Taac.PlayFile: what happens to memory behind the buffer once the copying leaves it; `fits` says that it does, and the model stops there.
- RecordReader.LocalFile.GetNextBuffer: the transfer size is at least that of a largest record; with a smaller one the program stops at the first record that does not fit into a transfer.
- ArchiveRotation.LogDirectory.Rollover: archive numbers stay below 100000 and the extension begins behind '9', so that the queue is that of the numbers; the listing of `scandir` is built from the directory and `rename` does not fail.
- PlayClock.Timer.GetSeconds: duration texts have two colons, as the program takes the place behind a missing one for granted.
- The schedule's outer loop: the order is replaced while the walk still points into it, and nothing bounds a run in which no track is admissible. Slots, their switches and the clock are modelled.
- `analise_folders_by_index`, `check_current_record`, `add_to_folder`, the `on_erase_*` callbacks: not called in order mode.
- `NextBuffer` of the local log: it advances the position a second time and is not part of the reading protocol.
- Mutexes around log rotation, delivery to the remote logger, sockets, signals, pid files, configuration files, message packing and log output.
- The clock: the time of day, the current time and "ten years ago" are parameters.
- Text encodings and the NUL at the end of C strings; all texts are sequences of characters without it.
- `mpx.cpp`, `mp3bitrate.cpp`, the vendored `ini.c` and the copies in `accordion_V9.X` and `musicgo_alias`: they add no new behaviour of this kind.
