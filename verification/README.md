# Verification of icwmp

icwmp is a TR-069 (CWMP) client for OpenWrt, written in C. This project models its stateful
components in Dafny and proves what they are for:

- `Md5Spec.dfy`, `Md5.dfy`: the streaming MD5 of `md5.c` refines the message digest of RFC 1321,
  for every message and every split of it into updates.
- `HeaderFields.dfy`, `DigestAuth.dfy`: the digest authentication of `digestauth.c` decides as
  RFC 2617 asks, with nonces that carry their own time and a hand-written header scanner.
- `Notifications.dfy`: the seven pruned lists of notification attributes in `dm/dmcwmp.c` stand for
  the plain history of settings, and the store is canonical.
- `ParamList.dfy`, `DataModel.dfy`, `DataModelAnswers.dfy`, `DataModelWalk.dfy`, `SetValues.dfy`: the
  pruned walk over the data model (`dm/dmcwmp.h`, `dm/dmcwmp.c`) equals a filter of the full
  enumeration, exactly on the paths for which that holds; SetParameterValues is all-or-nothing.
  `DataModel.dfy` has the walk as a function and its theorems, `DataModelAnswers.dfy` says what is
  listed in terms of the enumeration alone, `DataModelWalk.dfy` has the context that the entry
  functions update.
- `Session.dfy`, `SessionOrder.dfy`, `SessionMerge.dfy`, `SessionLive.dfy`, `SessionBackup.dfy`,
  `SessionRestart.dfy`, `SessionExact.dfy`, `SessionState.dfy`:
  the event and session machine of `cwmp.c` and `event.c` with its persisted backup. The first file
  gives the machine as steps on a value, the last one as a class that edits its queue, its event
  lists and the backup tree in place and is proved to take exactly those steps; the others say what
  a merge, a save and a restart preserve.
- `Backup.dfy`, `BackupKinds.dfy`: the record tree of `backupSession.c`, its keyword search, and the
  insert and delete pairs. The second file has all twelve kinds of record and says which of them the
  search for one takes.
- `Transfers.dfy`, `TransferRuns.dfy`: the queues of scheduled downloads and uploads, the counter that
  limits them, and their runs against the clock and the requests.
- `Timing.dfy`: the connection-request limiter, the next periodic time and the retry wait.

Code that changes state in place is a class or a method with loops, proved against a function of
the old state; the main results are lemmas about those functions, over all inputs and all runs.

Assumptions: allocation succeeds; an unsigned long has 64 bits; saving the backup file is atomic; a
step under one of the named mutexes is atomic; strings are C strings without their final NUL;
`%d`/`atoi` and `%ld`/`atol` round trips are kept as numbers; the root of the data model is
`InternetGatewayDevice.` (the TR-098 build).

Where the code differs from what its documentation or the standards lead one to expect, the code is
followed and the exact condition is proved:

- The keyword search of the backup does not check the element name again on later siblings, and a
  null keyword matches every text. Which record it accepts is known for every kind of search and of
  record (`BackupKinds.AcceptsIff`). Kinds that cross: the searches for a schedule_inform, a
  change_du_state and a du_state_change_complete take each other's records and those of downloads and
  uploads, whenever the CommandKey fits and the time is the same; that for an upload takes downloads;
  that for an event takes events of either status. Exactly for these kinds there is a backup in which
  the search finds a record of another name (`BackupKinds.FindsOwnNameIff`), and it does so exactly
  when that is the first record it takes behind one of its own name (`BackupKinds.TakesOtherIff`). A
  ScheduleInform with the CommandKey and the time of a download is then not saved, and its delete
  removes the download's record (`BackupKinds.InformTakesDownload`). Event records are touched by no
  other kind (`BackupKinds.EventsAlone`), those of transfers by the three above only
  (`BackupKinds.TransfersAlone`).
- Among transfers, a request that leaves takes the record of another one exactly when it has none of
  its own and its search finds one (`Transfers.RemoveTakesOthersIff`); `Transfers.DownloadLost` is a
  run of three requests and one launch after which a restart loses the download still queued.
- The insert of `apply_schedule_download` lists its keys in another order than its children, so its
  duplicate check never fires (`BackupKinds.ApplyInsertTakesNone`, `Backup.InsertIdempotentIff`).
- The id counter of event containers starts over after a restart while loaded containers keep their
  ids; a later save can find a foreign record and leave none of its own. Everything that follows a
  restart is safe exactly when no record of the file has an id that the new counter is yet to reach
  (`SessionRestart.RestartSafeIff`); `SessionRestart.SecondRunLoses` is a run that does lose an event.
  From an empty backup, runs are safe exactly up to the number of ids (`SessionRestart.RunSafeIff`).
- A delayed transfer request whose time comes out as 0 breaks the counter (`Transfers.HandleCountsIff`),
  and a request that an earlier record already matches gets no record of its own
  (`Transfers.StepCompleteIff`, `Transfers.SecondNotNew`).
- A path to objects is matched anywhere in a name. The answers are those of the reference in every
  tree exactly when the path is no path to objects, is ".", or has the root in it
  (`DataModel.RightAnswersIff`); for any other path, a tree in which GetParameterValues lists a
  parameter instead of fault 9005 is given (`DataModel.FragmentIsListed`).
- The limiter admits 50 requests a window, but 99 in some five seconds (`Timing.AtMost99`,
  `Timing.NinetyNineServed`).
- A session key of "md5-sess" hashes the first digest as 16 bytes, as the sample code of section 5
  of RFC 2617 does; the check itself only asks for "md5", and it accepts no header without `qop=auth`.

## Model

| member | source | states |
|---|---|---|
| Md5.XorMux | md5.c:47-51 | the xor forms of F1 and F2 are the F and G of RFC 1321, for all words |
| Md5.RotateIsCircularShift | md5.c:54-55 | two shifts and an or rotate left by each of the sixteen amounts of the table |
| Md5.StepIsOperation | md5.c:54-55 | MD5STEP computes the operation [abcd k s i] of section 3.4, whatever order it adds in |
| Md5.Md5Step | md5.c:54-55 | one step moves the registers from operation n to n + 1, with the roles stepped on |
| Md5.Round1 | md5.c:73-88 | sixteen unrolled steps are operations 1 to 16 of the table |
| Md5.Round2 | md5.c:90-105 | ... operations 17 to 32 |
| Md5.Round3 | md5.c:107-122 | ... operations 33 to 48 |
| Md5.Round4 | md5.c:124-139 | ... operations 49 to 64 |
| Md5.MD5Transform | md5.c:62-145 | the unrolled transform is the four-round compression of section 3.4 for every state and block |
| Md5.ChainAppend | md5.c:203-209 | chaining over whole blocks first and the rest later is chaining over all of it |
| Md5.ChainBlock | md5.c:203-209 | one more block compresses the chaining value of what came before |
| Md5.CounterCarry | md5.c:178-181 | the two-word counter with its manual carry stays the bit length modulo 2^64 |
| Md5.CountMod64 | md5.c:183-183 | the low word alone tells how many bytes wait in the buffer |
| Md5.LittleEndianSplit | md5.c:256-258 | the two counter words, written low first, are the 64-bit length of section 3.2 |
| Md5.PaddedShort | md5.c:249-253 | with at most 55 waiting bytes, one padded block completes the chain of sections 3.1 and 3.2 |
| Md5.PaddedLong | md5.c:239-248 | with more, two blocks do |
| Md5.MD5Context.constructor | md5.c:153-162 | a new context has taken in the empty message |
| Md5.MD5Context.AddBits | md5.c:176-181 | the counter part of MD5Update |
| Md5.MD5Context.Leading | md5.c:187-200 | completing the waiting bytes to a block keeps the chaining value right |
| Md5.MD5Context.Chunks | md5.c:203-214 | whole blocks go into the chaining value and the rest into the buffer |
| Md5.MD5Context.Absorb | md5.c:183-214 | after an update the buffer holds exactly the unprocessed tail of the whole message |
| Md5.MD5Context.Update | md5.c:168-214 | the context has taken in the old message followed by the new bytes, however they were split before |
| Md5.MD5Context.FinishBlock | md5.c:239-248 | the first of two padding blocks |
| Md5.MD5Context.PadTo56 | md5.c:228-253 | one more block that ends in the length completes the digest's chain |
| Md5.MD5Context.Final | md5.c:219-264 | the result is the RFC 1321 digest of everything given to the updates, and the context is wiped |
| Md5.DigestInPieces | md5.c:12-15 | init, any sequence of updates and final give the RFC 1321 digest of the joined buffers |
| HeaderFields.NextField | digestauth.c:147-198 | one turn of the scan finds the next field and moves strictly forward |
| HeaderFields.LookupSubValue | digestauth.c:131-200 | the first value under the name, cut to the buffer; the scan ends |
| HeaderFields.FirstValueIs | digestauth.c:167-187 | the value is that of the first field under the name, whole when it fits and else as much as leaves room for the NUL |
| HeaderFields.SameNameIff | digestauth.c:167-167 | names are the same when they differ at most in the case of letters |
| HeaderFields.FieldsOfPrint | digestauth.c:131-200 | scanning a printed list gives the list back, whatever '=' and ',' its quoted values hold |
| HeaderFields.LookupPrinted | digestauth.c:131-200 | a printed list with different names: exactly the printed value of a name, nothing for an absent one |
| DigestAuth.CvtHex | digestauth.c:59-72 | the buffer holds the hexadecimal form and a NUL, the rest of it is untouched |
| DigestAuth.HexUndone | digestauth.c:59-72 | reading hexadecimal digits undoes writing them, for every byte string |
| DigestAuth.StrToUl | digestauth.c:399-399 | strtoul with base 16 reads a string of digits to its end and gives its value |
| DigestAuth.NonceCarriesTime | digestauth.c:87-115 | the time read back from a nonce is the one it was made for |
| DigestAuth.CalculateNonce | digestauth.c:87-115 | H(timestamp:method:random:uri:realm) followed by the timestamp |
| DigestAuth.DigestCalcHa1 | digestauth.c:214-239 | without a session H(A1) of section 3.2.2.2 of RFC 2617; with one, the digest over the 16 bytes of the first, as in the sample code of its section 5 |
| DigestAuth.DigestCalcResponse | digestauth.c:254-288 | the request digest of section 3.2.2.1, with qop or without |
| DigestAuth.RequestDigestIs | digestauth.c:254-288 | section 3.2.2.1 written out as one digest of the joined texts |
| DigestAuth.AcceptedIff | digestauth.c:346-462 | accepted exactly when the nonce is one the server issues for some time still alive and everything else matches |
| DigestAuth.InvalidNonceIff | digestauth.c:399-431 | with account, realm and uri right, the answer is invalid-nonce exactly when no living time explains the nonce |
| DigestAuth.MatchingVerdict | digestauth.c:346-462 | with everything else right, the nonce of time n is accepted until n + timeout, which must not wrap, and stale otherwise |
| DigestAuth.EightDigitsAreRead | digestauth.c:444-449 | a nonce count of eight hexadecimal digits, as RFC 2617 gives it, passes the test whatever errno says |
| DigestAuth.HonestVerdict | digestauth.c:346-462 | so a request by the rules of RFC 2617 that answers the nonce of time n gets that verdict |
| DigestAuth.HeaderVerdict | digestauth.c:346-462 | the verdict on a printed header is that on its values, the fields in any order, quoted or not, among others |
| DigestAuth.HonestHeader | digestauth.c:346-462 | so the verdict on an honest request holds for every header that carries it |
| DigestAuth.FieldsFit | digestauth.c:366-393 | the fields found never take more room than the header |
| DigestAuth.RoomsAreDisjoint | digestauth.c:366-393 | the four values looked up for 'left' lie in different places |
| DigestAuth.UriNotCut | digestauth.c:366-393 | 'left' never wraps and its buffer holds the whole uri, for any header |
| DigestAuth.CheckResponse | digestauth.c:444-460 | the nonce count is read to its end, is not LONG_MAX while errno is ERANGE, and the response is the expected one |
| DigestAuth.CheckNonce | digestauth.c:399-460 | the tests on time, uri and nonce, in order, then the response |
| DigestAuth.HttpDigestAuthCheck | digestauth.c:346-462 | the verdict of the reference decision on the values in the header |
| Notifications.ContainsIsPrefix | dm/dmcwmp.c:565-566 | on names of the data model the substring test is a prefix test |
| Notifications.WriteLookup | dm/dmcwmp.c:606-659 | one setting changes the value of exactly the names it covers |
| Notifications.StoreRefinesHistory | dm/dmcwmp.c:546-659 | after any history, the value of a name is that of the last setting that covers it |
| Notifications.WriteKeepsCanonical | dm/dmcwmp.c:582-657 | a setting never leaves a listed name that repeats what it would inherit |
| Notifications.ReachableIsCanonical | dm/dmcwmp.c:582-657 | so in every reachable state |
| Notifications.ListedIff | dm/dmcwmp.c:582-657 | a name is listed exactly when its value differs from that of the object around it |
| Notifications.LookupDeterminesStore | dm/dmcwmp.c:582-657 | two stores with the same values are the same store |
| Notifications.KeptRepresents | dm/dmcwmp.c:582-603 | removing a name from every list removes its subtree from the index and nothing else |
| Notifications.NearestDecides | dm/dmcwmp.c:564-573 | the longest listed object around a name gives its inherited value |
| Notifications.NotificationStore.Find | dm/dmcwmp.c:546-579 | scanning seven lists for an exact or the longest match looks the name up |
| Notifications.NotificationStore.Get | dm/dmcwmp.c:546-579 | the value of the last setting that covers the name |
| Notifications.NotificationStore.Remove | dm/dmcwmp.c:582-603 | an object takes everything below it along, out of every list |
| Notifications.NotificationStore.Set | dm/dmcwmp.c:606-659 | the lists stand for the history with this setting appended |
| ParamList.InsertMeans | dm/dmcwmp.c:357-375 | the list stays ascending, gains the entry unless its name is there, and loses nothing |
| ParamList.LessIff | dm/dmcwmp.c:362-367 | the order is that of strcmp: the first difference decides, and an earlier end comes first |
| ParamList.AscendingUnique | dm/dmcwmp.c:357-375 | an ascending list is determined by its members |
| ParamList.AddInPlace | dm/dmcwmp.c:357-375 | the insertion loop |
| DataModel.CheckObjIsNl1 | dm/dmcwmp.c:672-686 | whether the path is as long as the name up to its ndot-th dot from the end |
| DataModel.ParamIsChild | dm/dmcwmp.c:672-686 | for a parameter below a path: it is one level below |
| DataModel.ObjectIsChild | dm/dmcwmp.c:672-686 | for an object below or at a path: it is one level below and not the path itself |
| DataModel.SkippedIsUnwanted | dm/dmcwmp.h:39-49 | an entry that IF_MATCH prunes has nothing the query wants, at any depth |
| DataModel.RootIsUnwanted | dm/dmcwmp.h:51-59 | nor has a root entry that IF_MATCH_ROOT prunes |
| DataModel.RootedIsPrefix | dm/dmcwmp.c:787-801 | on names, the substring test of a path with the root in it is a prefix test |
| DataModel.TestedIsWanted | dm/dmcwmp.c:787-801 | the substring test of a callback is the subtree test of the reference |
| DataModelWalk.DmCtx.MethodObj | dm/dmcwmp.c:740-877 | each object callback: the visit is tested as in the source and then listed, counted or ignored |
| DataModelWalk.DmCtx.MethodParam | dm/dmcwmp.c:759-928 | each parameter callback, with its stop and fault |
| DataModelWalk.DmCtx.WalkItems | dm/dmcwmp.h:61-75 | the body of an entry function leaves the context and the current object that the walk function gives, for any path and any tree |
| DataModelWalk.DmCtx.WalkEntry | dm/dmcwmp.h:39-75 | so does an entry function, whether it matches or not |
| DataModel.WalkFromIsFold | dm/dmcwmp.h:39-75 | the pruned body of an entry has the effect of visiting everything below it |
| DataModelWalk.DmCtx.WalkTree | dm/dmcwmp.c:730-738 | so does the loop over the prefixes, up to a stop |
| DataModel.WalkIsFold | dm/dmcwmp.c:730-738 | the pruned walk of the whole tree has the effect of visiting everything |
| DataModel.FoldMeans | dm/dmcwmp.c:713-928 | with its early stops, visiting everything gives the sorted duplicate-free list of a filter, and its fault |
| DataModelWalk.DmCtx.DmEntryGetValue | dm/dmcwmp.c:713-738 | the list and fault of the walk under the query that the path selects |
| DataModelWalk.DmCtx.DmEntryGetName | dm/dmcwmp.c:807-841 | the same for names, with 9003 for NextLevel on a parameter |
| DataModelWalk.DmCtx.DmEntrySetValue | dm/dmcwmp.c:1149-1166 | the walk of a set command: the parameter it stops at, or 9005 |
| DataModelWalk.DmCtx.DmEntryParamMethod | dm/dmentry.c:110-141 | the two commands with their argument checks; on a readable path the list and the fault are exactly those asked for |
| DataModelAnswers.LevelMeans | dm/dmcwmp.c:688-708 | which texts of NextLevel are true, which are false, and that all others are refused |
| DataModelAnswers.ResponseIsRight | dm/dmcwmp.c:713-928 | values list exactly the parameters that the path reaches, names all objects and parameters, with NextLevel the direct children or the root; each entry has the value and type, or the permission, of a visit; which fault is given when |
| DataModel.ResponseIsAnswer | dm/dmentry.c:110-141 | the answer is the sorted filter of the full enumeration and the fault of the reference, 9005 exactly when the path names nothing |
| DataModel.RightAnswersIff | dm/dmcwmp.h:39-49 | so it is in every tree exactly when the path is no path to objects, is ".", or has the root in it |
| DataModel.FragmentIsListed | dm/dmcwmp.h:43-45 | for any other path, a tree with a parameter that is listed without a fault where the reference gives 9005 and nothing |
| DataModel.SetSearchIsFirst | dm/dmcwmp.c:1149-1180 | a set command works on the first parameter of the name in the full enumeration, and gives 9005 exactly when there is none |
| DataModel.NextLevelIsChildren | dm/dmcwmp.c:856-923 | NextLevel on a path picks exactly its direct children |
| DataModel.InsertAllMeans | dm/dmcwmp.c:357-375 | any answers come out ascending by strcmp, every name once, nothing made up |
| DataModel.InsertAllExact | dm/dmcwmp.c:357-375 | answers with different names come out as exactly those entries |
| SetValues.FaultsMean | dm/dmentry.c:149-156 | the fault list holds the faults of exactly the pairs that fail their check |
| SetValues.NoFaults | dm/dmentry.c:149-156 | so it is empty exactly when all are accepted |
| SetValues.CheckFaultIs | dm/dmcwmp.c:1173-1190 | a name of no parameter gives 9005, a first parameter that is read-only or has no set_cmd gives 9008, of any other the check decides |
| SetValues.GoodIff | xml.c:1470-1516 | the handler's tests pass exactly when the names differ and each first parameter of a name is writable and its check agrees |
| SetValues.HopelessRefused | dm/dmcwmp.c:1186-1189 | a request with an unknown or unwritable name is refused |
| SetValues.FaultsReport | dm/dmentry.c:149-156 | and each such name is in the fault list with 9005 or 9008 |
| SetValues.Handler.IsDuplicated | xml.c:1435-1448 | whether the name comes again later |
| SetValues.Handler.Search | dm/dmcwmp.c:1149-1180 | the walk over the present tree finds the parameter that has the name |
| SetValues.Handler.CheckValue | dm/dmcwmp.c:1168-1196 | the check phase for one pair: the fault, or the pair is kept for the apply phase |
| SetValues.Handler.Apply | dm/dmentry.c:199-225 | all pairs are written once, in order, or the configuration is as before |
| SetValues.Handler.CheckPairs | xml.c:1470-1516 | the pairs are kept exactly when their names differ and all pass |
| SetValues.Handler.SetParameterValues | xml.c:1450-1540 | on success each pair is written once, in order, under different names; whatever is written may be written; a request with an unknown or unwritable name leaves configuration and writes alone and reports it; on any fault nothing is changed |
| SetValues.CheckedStaysThere | dm/dmentry.c:208-218 | the fault of the apply phase cannot happen when writes do not change which names exist |
| SetValues.AllOrNothing | xml.c:1450-1540 | then a request is applied exactly when it is complete, its names differ and each of its pairs may be written |
| SetValues.AcceptedOnce | xml.c:1435-1448 | pairs that pass the duplicate test and the checks have different names |
| Backup.GreedyIffSubsequence | backupSession.c:60-73 | the greedy scan accepts exactly when the keys match children at increasing positions |
| Backup.BackupTree.NodeFound | backupSession.c:49-81 | the first record from the first of the name on that accepts the keys, whatever its name |
| Backup.BackupTree.InsertRecord | backupSession.c:83-107 | one record more at the end, or the one that was found |
| Backup.BackupTree.DeleteRecord | backupSession.c:109-125 | the found record is gone, the others stay |
| Backup.BackupTree.RenameAll | backupSession.c:162-196 | every record of one name gets the other, the rest is untouched |
| Backup.FoundAfterAppend | backupSession.c:49-81 | a search that found nothing finds a record appended later exactly when that accepts the keys |
| Backup.InsertIdempotentIff | backupSession.c:198-275 | a repeated insert changes nothing exactly when the record accepts its own keys |
| Backup.DownloadAcceptsDownload | backupSession.c:506-537 | a search for a download takes a download record exactly when times and sizes are equal and every other field is absent from the key or equal |
| Backup.UploadAcceptsUpload | backupSession.c:238-275 | so for uploads, without a size |
| Backup.UploadAcceptsDownload | backupSession.c:49-81 | a search for an upload takes a download record exactly under the same condition |
| Backup.DownloadRejectsUpload | backupSession.c:49-81 | a search for a download never takes an upload record |
| Backup.DeleteTakesDownload | backupSession.c:109-125 | deleting an upload behind another upload's record deletes a download's record |
| Backup.InsertTwice | backupSession.c:198-756 | so it is for the five kinds whose keys follow the order of their children |
| Backup.DeleteRestores | backupSession.c:198-756 | and deleting what was not found before its insert restores the tree |
| Backup.ApplyNeverAccepted | backupSession.c:350-402 | the duplicate check of apply_schedule_download never fires |
| Backup.ApplyInsertDuplicates | backupSession.c:350-445 | so a repeated insert duplicates the record, and one delete leaves a copy |
| BackupKinds.ScheduleAcceptsSchedule | backupSession.c:277-348 | a search for a schedule_download takes one exactly when its fields and both windows fit |
| BackupKinds.CompleteAcceptsComplete | backupSession.c:698-756 | a search for a transfer_complete takes one exactly when its fields fit, whatever the old software version |
| BackupKinds.TimedAccepts | backupSession.c:198-238 | a search by CommandKey and time takes exactly the records that have both, of six kinds, and fit |
| BackupKinds.ApplyAccepts | backupSession.c:404-445 | the delete of apply_schedule_download takes exactly the records of its kind that fit |
| BackupKinds.EventAccepts | backupSession.c:109-125 | a search for an event takes exactly the event records of the id |
| BackupKinds.AcceptsIff | backupSession.c:49-81 | which record is accepted, for every kind of search and every kind of record |
| BackupKinds.ApplyInsertTakesNone | backupSession.c:350-402 | the search of the insert of apply_schedule_download accepts no record of any kind |
| BackupKinds.SearchIff | backupSession.c:49-81 | in a backup of any records the search finds the first one it takes behind one of its own name |
| BackupKinds.TakesOtherIff | backupSession.c:49-81 | it finds a record of another name exactly when that is the first it takes |
| BackupKinds.FindsOwnNameIff | backupSession.c:49-81 | it finds records of its own name only, in every backup, exactly for downloads, both kinds of scheduled download and transfer_complete |
| BackupKinds.EditsAre | backupSession.c:83-125 | the insert and delete functions on the tree are edits of the list of records |
| BackupKinds.OtherRecordTaken | backupSession.c:83-125 | when another record is taken, the insert adds none and the delete removes the other one's |
| BackupKinds.InformTakesDownload | backupSession.c:198-238 | so a ScheduleInform with the CommandKey and time of a download, behind another one, is not saved and takes the download's record along |
| BackupKinds.EditsOnly | backupSession.c:83-125 | an edit, seen on the records of some names: the same edit, or none exactly when it finds none of them |
| BackupKinds.EventsAlone | backupSession.c:83-125 | event records change by the edits for events only, as if no other record were there |
| BackupKinds.TransfersAlone | backupSession.c:198-275 | so do those of downloads and uploads, but for a schedule_inform or change_du_state search that finds one |
| Session.StepStructured | cwmp.c:368-529 | every step keeps: at most one queued session, the head pointer, sorted events, SINGLE codes once, one Inform at the head |
| Session.Run | event.c:77-123 | every run from an empty queue and backup is in such a state |
| SessionLive.AddEventCovers | event.c:77-123 | an added event is there afterwards, from code 12 on once more than before, and no other is lost |
| SessionLive.AddSavedCovers | event.c:77-123 | the same with parameters attached |
| SessionLive.SavedHas | dm/dmcwmp.c:357-375 | and each attached name is on the container |
| SessionLive.FailMeans | cwmp.c:224-238 | a failed session is given up exactly when it has only connection requests to report; else it is queued again and the retry count grows |
| SessionLive.StepKeepsEvents | cwmp.c:368-529 | no step but a clear, the answer to an Inform and, for connection requests, a failure loses an event or a parameter of one |
| SessionLive.RunKeepsEvents | cwmp.c:368-529 | so over every run without such steps |
| SessionLive.StepKeepsWork | cwmp.c:385-472 | each step keeps every RPC but the answered one and those of a session that is given up |
| SessionLive.SessionMoves | cwmp.c:296-299 | what is sent is what was queued; the answered RPC goes and the others stay in order; a finished session resets the retry count |
| SessionLive.RunRetried | event.c:62-72 | in every reachable state the backup has no event of the codes 1, 4, 6 and 8 |
| SessionLive.LoadSkips | backupSession.c:781-855 | and none would be loaded |
| SessionOrder.AddToInOrder | event.c:83-115 | a new container goes behind all of its code |
| SessionOrder.StepInOrder | cwmp.c:368-529 | every step keeps events of one code in the order in which their containers were made, whatever their ids |
| SessionOrder.RunInOrder | event.c:77-123 | so in every reachable state, queued or being sent, with the lists ascending by code |
| SessionMerge.MergeConserves | cwmp.c:432-471 | a merge unites SINGLE codes, adds up (code, key) pairs and parameters, and keeps every other RPC once and in order |
| SessionMerge.RequeueConserves | cwmp.c:396-431 | with nothing queued the session comes back with the same events and RPCs, one Inform at the head and no request of the server |
| SessionMerge.MovedOthers | cwmp.c:446-468 | only Inform and GetRPCMethods can stay behind, and nothing is lost between the two lists |
| SessionMerge.MovedOnce | cwmp.c:446-468 | of these one is moved exactly when the queued session has none |
| SessionMerge.AbsorbMeasures | event.c:77-123 | adding one failed event to the queued list adds its key and its parameters |
| SessionBackup.SaveRecordMeans | backupSession.c:83-107 | after a save the container has a record with its names, and no other record changed |
| SessionBackup.DeleteRecordsMeans | event.c:394-413 | removing the events of a session deletes their records and no others |
| SessionBackup.StepPersisted | event.c:55-123 | every step keeps each saved container tied to a record of its own, under the right status |
| SessionBackup.RunFromPersisted | event.c:55-123 | so in every run from such a state that makes no more containers than there are ids |
| SessionBackup.RunPersisted | event.c:55-123 | so in every such run from an empty backup |
| SessionBackup.RestartRestores | backupSession.c:781-855 | a stop at any step and a restart restore every saved container not yet acknowledged, with code, key, id and names |
| SessionBackup.RunRestores | backupSession.c:1955-1980 | over whole runs: SINGLE codes as a set, (code, key) pairs with at least their multiplicity |
| SessionExact.StepTied | event.c:394-413 | no step leaves a record without its live container, whose status it has |
| SessionExact.RunTied | event.c:394-413 | so in every run from an empty backup within the number of ids |
| SessionExact.RunRestoresExactly | backupSession.c:1955-1980 | there a restart brings back exactly the saved live events: (code, key) pairs of MULTIPLE ones with their multiplicity, of the others the same codes |
| SessionRestart.SaveRecordsIff | backupSession.c:83-107 | a save leaves a record of its own container exactly when its search found nothing or such a record is there |
| SessionRestart.RestartLoads | backupSession.c:781-855 | every loaded container has code and id, and a MULTIPLE one the key, of a record of its own, and the counter counts the containers |
| SessionRestart.RestartPersisted | backupSession.c:781-855 | when no record has an id beyond the new counter, the state after a restart has the invariant that every step keeps |
| SessionRestart.RestartLoses | event.c:105-115 | when one has, some continuation saves a live container that the next restart does not bring back |
| SessionRestart.RestartSafeIff | event.c:105-115 | so every continuation of a restart is safe at every step boundary exactly when no record has such an id |
| SessionRestart.RunRestartIff | event.c:105-115 | in particular after every run from an empty backup |
| SessionRestart.RunSafeIff | event.c:105-115 | the runs from an empty backup that make at most n containers are all safe exactly when n is at most 2147483646 |
| SessionRestart.RunLeavesRecord | event.c:79-121 | a concrete run that leaves one record whose id is ahead of the counter of a new process |
| SessionRestart.SecondRunLoses | backupSession.c:828-832 | restarted from it, the next saved event is lost at the second restart |
| SessionState.AcceptsId | backupSession.c:83-107 | the keyword search for an id accepts exactly the event records with that id |
| SessionState.SameFound | backupSession.c:49-81 | the search of the tree is the search of the machine |
| SessionState.Cwmp.AddEventContainer | event.c:77-123 | one step of the machine: found, or inserted in order with the next id |
| SessionState.Cwmp.SaveEventContainer | event.c:55-75 | the record and its parameters in the tree are those of the machine |
| SessionState.Cwmp.AddSaveEvent | cwmp.c:432-444 | adding, then splicing parameters in front or inserting their names in order, then saving |
| SessionState.Cwmp.RemoveAll | event.c:394-413 | the records of the events are deleted, one by one |
| SessionState.Cwmp.MoveSessionToSend | cwmp.c:368-383 | the step of the machine, or nothing while a session is being sent |
| SessionState.Cwmp.RemoveNoRetry | event.c:415-436 | events without retry are dropped, and a connection request is noted |
| SessionState.Cwmp.Destroy | cwmp.c:480-506 | an Inform that is cleaned up takes the records of its session along |
| SessionState.Cwmp.MoveRpcs | cwmp.c:446-468 | the splice loop moves and leaves what the machine says |
| SessionState.Cwmp.MoveSessionToQueue | cwmp.c:385-472 | queued again or merged, as the machine says, with its invariant |
| SessionState.Cwmp.Requeue | cwmp.c:396-431 | nothing was queued meanwhile: the session comes back with one Inform at the head and no request of the server |
| SessionState.Cwmp.Merge | cwmp.c:432-471 | a session was: events, RPCs and the destructor |
| SessionState.Cwmp.AcknowledgeRpc | cwmp.c:296-299 | the answered head RPC is gone; with an Inform, so are the events and their records |
| SessionState.Cwmp.RetrySession | cwmp.c:224-238 | the failure exit of a session |
| SessionState.Cwmp.FinishSession | cwmp.c:236-238 | the success exit |
| SessionState.Cwmp.LoadQueueEvent | backupSession.c:781-855 | loading one record is the step of the restart |
| Transfers.TransferQueues.HandleRequest | xml.c:4133-4217 | the tests of the handlers, then sorted insertion, counting and the record |
| Transfers.TransferQueues.Turn | xml.c:2427-2518 | one turn of a transfer thread takes the head when it is due |
| Transfers.TransferQueues.CancelTransfer | xml.c:1946-1987 | both loops of a cancel |
| Transfers.TransferQueues.RemoveAllOf | xml.c:3719-3755 | one queue is emptied with its records |
| Transfers.TransferQueues.LoadTransfer | backupSession.c:911-1015 | one record is read child by child and queued in order |
| Transfers.TransferQueues.LoadSaved | backupSession.c:1993-2075 | all records of the backup in turn |
| Transfers.InsertSorted | xml.c:4194-4202 | both scans, with '>=' and with '>', keep a queue sorted |
| Transfers.HandleCountsIff | xml.c:4191-4207 | an accepted request keeps the counter right exactly when it has no delay or its time is not 0 |
| Transfers.ReadBack | backupSession.c:911-1003 | the loaders read back what the insert functions wrote |
| Transfers.StepKeeps | xml.c:4133-4217 | every step keeps queues sorted, the counter exact and at most 10, and each record matched to a queued request of its own |
| Transfers.RunInvariant | xml.c:3719-3755 | so in every run of requests, launches, cancels, removals, saves and restarts |
| Transfers.RestartMeans | backupSession.c:1004-1014 | a restart queues exactly what the file holds, in order, and counts it |
| Transfers.RestartRestores | backupSession.c:1431-1441 | when every request has a saved record, a restart loses and adds none |
| Transfers.StepCompleteIff | backupSession.c:238-275 | each step keeps that, but for an accepted request whose search already finds a record |
| Transfers.SecondNotNew | backupSession.c:238-275 | the same request a second time is such a request |
| Transfers.RestartLosesLacking | backupSession.c:1004-1014 | a restart loses exactly as many equal requests as have no record of their own |
| Transfers.AcceptLacks | backupSession.c:238-275 | an accepted request lacks a record exactly when its search finds one, and no other request is affected |
| Transfers.RemoveLacks | backupSession.c:109-125 | a request that leaves takes the record its search finds, whoever's that is |
| Transfers.RemoveTakesOthersIff | backupSession.c:49-81 | another request loses its record exactly when the leaving one has none of its own and its search finds one |
| Transfers.CrossingExists | xml.c:4133-4217 | three requests that the handlers accept: an upload, a download from elsewhere, and an upload with the data of that download |
| Transfers.DownloadLost | backupSession.c:49-81 | a run of three accepted requests and one launch after which a restart loses the download still queued |
| Transfers.CancelMeans | xml.c:1951-1967 | exactly the requests with the key are gone, the others keep their order |
| Transfers.CancelBoth | xml.c:1946-1987 | a cancel takes the requests with the key out of both queues, the counter falls by those with a time, and it is saved when it removes any |
| Transfers.OthersAre | xml.c:1951-1967 | what stays is what has another CommandKey, as often as before |
| Transfers.CancelledGone | xml.c:1946-1987 | no request with the key is left, and every other one is |
| Transfers.CancelledRecords | xml.c:1946-1987 | nor is a record with the key, when every request had its record |
| Transfers.RemoveAllMeans | xml.c:3719-3755 | one queue is empty, the other and the file as they were |
| Transfers.TurnWaitsIff | xml.c:2427-2470 | a turn does nothing exactly when nothing is queued or the head's time is not 0 and still to come |
| Transfers.TurnTakes | xml.c:2431-2518 | else it takes the head and its record, and saves unless the head is more than 3600 seconds late |
| TransferRuns.AcceptedIff | xml.c:4133-4156 | a request is accepted exactly with an allowed file type and URL while fewer than ten wait for a time |
| TransferRuns.RefusedFor | xml.c:4133-4156 | which fault each refusal gives |
| TransferRuns.HandleAdds | xml.c:4186-4207 | an accepted request queues one transfer, at the time of its delay from now, and nothing else changes |
| TransferRuns.HandlePlaces | xml.c:4191-4202 | in front of the first that is not earlier |
| TransferRuns.LoadPlaces | backupSession.c:1004-1014 | a loaded one in front of the first that is later |
| TransferRuns.RunAsked | xml.c:4133-4217 | in every run, restarts included, each queued transfer is what an accepted request asked for |
| TransferRuns.NeverEarly | xml.c:2427-2470 | in every run a transfer that a turn takes was asked for by a request whose delay has passed |
| TransferRuns.TakenWhenDue | xml.c:2427-2470 | and once it has passed a turn takes the head |
| Transfers.HeadIsDue | xml.c:2427-2436 | looking at the head is enough: its time has come as soon as that of any request has |
| Timing.Listener.Accept | http.c:484-505 | one accepted connection |
| Timing.AtMost99 | http.c:484-505 | at most 99 requests are served in any closed five seconds, for all arrival times |
| Timing.NinetyNineServed | http.c:484-505 | and some arrivals reach that |
| Timing.RefusedUntilQuiet | http.c:488-502 | after a refusal the next request is served exactly when it comes more than five seconds later |
| Timing.NextPeriodic | event.c:650-662 | the least instant after now on the grid of the reference, past or future, with the remainder of C |
| Timing.GetRetryInterval | cwmp.c:149-164 | the wait lies in the range of the retry table for the capped count, and each value of the range can come up |
| Timing.BoundIs | cwmp.c:149-164 | an end of the range is m times (k / 1000) to the power n, rounded down |
| Timing.WaitsNeverDecrease | cwmp.c:149-164 | one range begins where the one before ends, so waits never decrease up to the tenth retry |

## Left out

- Md5.Round1: the sixteen steps are a method of their own, one for each round of the unrolled transform.
- Md5.MD5Transform: byteReverse is empty, as on a little-endian host.
- Md5.MD5Context.Update: one call takes fewer than 2^32 bytes, the range of its length parameter.
- DigestAuth.HttpDigestAuthCheck: what stands in front of the buffer of a nonce shorter than 8 characters, and errno when the nonce count has been read, are parameters.
- DataModelWalk.DmCtx.DmEntryParamMethod: instance aliases in a path are not looked up.
- DataModelWalk.DmCtx.WalkItems: sub-entry functions are the list of what they announce; the instances they loop over and the values their getters return are given.
- SetValues.Handler.SetParameterValues: the request is the list of its pairs; splitting of values at white space and Name elements without a Value are left out.
- SetValues.Handler.Apply: reverting takes the whole configuration back; what a write does outside the configuration files, and the update of the watched value after it (dm_update_enabled_notify_byname), are not part of D.
- Notifications.NotificationStore.Set: parameter names with instance aliases are not rewritten (update_param_instance_alias).
- SessionState.Cwmp.RemoveNoRetry: the code of an event is read before it is freed.
- SessionBackup.RunRestores: multiplicities are stated for runs with at most 2147483646 containers; SessionRestart.RunSafeIff shows that the bound is needed.
- SessionState.Cwmp.LoadQueueEvent: command keys with white space, which the XML library splits on reload, are kept whole.
- SessionState.Cwmp.SaveEventContainer: the backup tree of this class holds event records only; BackupKinds.EventsAlone shows that the others have no part in its searches.
- SessionState.Cwmp.RetrySession: cwmp_cr_event is set and never cleared, as in the source; that the scheduler drops a session's RPCs for it is not judged.
- Transfers.TransferQueues.CancelTransfer: a queued request without a CommandKey is passed over, where the source hands its null command_key to strcmp.
- Transfers.CancelMeans: it states the same of such requests: they stay.
- Transfers.RunInvariant: the backup of these runs holds the records of the two queues only; BackupKinds.TransfersAlone says which edits for other records touch them.
- Transfers.TransferQueues.Turn: what the transfer itself does, and its transfer_complete records, are left out; a launch is one step.
- Transfers.TransferQueues.HandleRequest: the parsed request is given, with a file type present; the f_instance of an upload is not kept.
- Timing.GetRetryInterval: pow is exact and the bounds fit an int.
- Timing.Listener.Accept: the counter does not overflow.
- The ScheduleDownload, apply and ChangeDUState threads: their counter and window handling is unfinished.
- The inserts of change_du_state and du_state_change_complete, which search for nothing, and the loaders of their nested records.
- The records acs and connection_request are found by name alone; BackupKinds has them as records that no keyword search accepts.
- Notification queries and the inform, add, delete and linker callbacks of the walk: the same traversal with other callbacks.
- libcurl, ubus, netlink, json-c, zlib and libstrophe calls, UCI internals, SOAP and XML building, and the per-parameter getters and setters under dm/dmtree.
- Thread scheduling beyond atomic steps, logging, the command line, configuration reading, the kernel module and packet-capture diagnostics.
- CWMP version negotiation and the WEP key helpers: finite or easy.
