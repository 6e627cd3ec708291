# A verified model of the mock SIP user agent server

The server answers SIP requests (RFC 3261). A socket thread hands each packet to one of seven workers by a
hash of its Call-ID. A worker keeps three linked lists (transactions, dialogs, calls) whose objects point at
each other directly and through fixed-size slot arrays. Requests move three coupled state machines; timers hand
back delete events by branch, and handling those frees transactions, and with them ended dialogs and calls.

The project has three layers.

- **Objects.** `Messages`, `Objects`, `TransactionLists`, `DialogLists`, `CallLists`, `Server`, `MessageQueue`
  and `WorkerThreads` hold classes with the fields of the C structures: `next` pointers, slot arrays of 32 and
  16, cached header pointers, the circular buffer. Their methods are the C functions, loop for loop. Every method
  of `SipWorker` and `WorkerThread` says which function of the old state the new state is, and every pointer it
  follows is shown to lead to an allocated object, if those of the old state do (`Closed`, `BackLinks`, `CallLinks`).
- **Values.** `WorkerModel` and `WorkerSystem` hold those functions: one worker as maps from addresses to records,
  three address lists, timers and a log; results of `malloc`, `sendto`, `rand` and the timer manager are the
  `Oracle`. `SipText`, `Scanner` and `Responses` are the parser and the printer as functions of text.
- **Theorems.** The other modules prove what holds of every step, every run and every text. What the functions of the
  second layer compute is said there once more without naming them: names and methods in any case by `Letters`, first
  lines, numbers and missing headers by `FirstLines`, parameters by `Reachability.FindParamIs`, the text of a response
  by `ResponseText`, what each request is answered and which timers start by `Answers`, the hash by `Dispatch`, sizes by
  `Limits.FixedSizes`.

Reading order: `SipTypes`, `WorkerModel`, `WorkerSystem`, `Invariants`, `Theorems`, `Strays`; then `Server` for the
pointers, `RoundTrip`, `Reachability` and `Requests` for the text, `Partition` for the whole server; `Limits`,
`Leftover`, `Overfull`, `Answered` and `Scripts` for what goes wrong, and the packets that show it.

## Assumptions made explicit

- `Invariants.Admissible`: the dialog a request's transaction joins has a free slot (`HasRoom`), and no live
  transaction stores the branch a new one will store (`Fits`). `RequestKeepsConsistentIff` shows that graph and
  coupling survive a request exactly when the first holds, `RequestKeepsBranchesIff` that branches stay distinct
  exactly when the second does; every branch of at most 64 characters fits (`ShortBranchFits`). Valid pointers need
  neither: `Strays.StepKeepsSafeIff` and `Strays.PathKeepsSafe` are about every step and every path.
- A response fits its buffer where it is read back (`Reachability.TagShown`); the log has the length that is passed to
  `sendto`, which counts what was cut (`WorkerModel.BytesOut`). Answers to requests of at most 979 bytes fit
  (`RoundTrip.NeverCut`).
- Delete events that cannot be allocated, whose timer cannot be started, or that meet a full queue are counted in
  `lost`; the leak and drain theorems are stated with it.
- An address is never handed out twice while the model looks (`nextId`), so stale pointers can be told apart.
- A C string is the text before its NUL; a pointer into a buffer is an index.

## Where code and expectation part

Each with its exact condition, and an input where it shows.

- A delete event checks the branch only, so one left over from an earlier transaction can end a later one early:
  `Limits.EventDeletesIff`; in the run of `Leftover.LeftoverEventDeletes` a transaction goes one millisecond after
  it was TERMINATED.
- ACKs are answered: not the first, for which nothing is stored, but its repetition, with a 500
  (`Limits.AckAnsweredIff`, `NewAckStoresNothing`, `RepeatedAckGets500`, `RetransmissionGets500Iff`).
- A further ACK for an INVITE takes the place of the one before, which is then never freed (`Limits.DisplacedIff`,
  `DisplacedForEver`, `Leftover.SecondAckDisplaces`, `Theorems.UnfreedAtRest`).
- Calls that FAILED are never freed (`Limits.FailedStays`). A call becomes FAILED exactly when it was made for an
  INVITE whose 180 or 200 cannot be sent (`Limits.CallFailsIff`, `StepFailsIff`); any first INVITE with a Call-ID, as in
  `Requests.ProperExample`, and a failing send start such a run (`Limits.FailedFromStart`).
- A dialog with no free slot still takes requests: the transaction points at the dialog, but has no slot there
  (`Strays.NoRoomStrays`). That stays harmless until a delete event drops the dialog; a freed dialog is then still
  pointed at exactly if such a transaction is left (`Strays.DeleteKeepsSafeIff`, `StepKeepsSafeIff`), and its own delete
  event, or the 500 to a retransmission, would follow the pointer. Re-INVITEs start no timer and keep their slots, so
  they fill any dialog (`Overfull.InTurnFills`, `FurtherRequestBreaks`); in `Overfull.FullDialogDangles` an INVITE, 31
  re-INVITEs and a BYE do, with the texts of `Scripts.FillScriptExample`.
- A branch longer than 64 characters is never found again, so repeating the request opens a second transaction
  that stores the same (`Invariants.LongBranchOpensTwo`, `RequestKeepsBranchesIff`, `Scripts.LongBranchExample`).
- A tag or branch is searched to the end of the text, not of its header: it is text of another header, or of the
  body, exactly when the header has no parameter that starts inside it (`Reachability.HeaderParamIff`); in
  `Requests.BorrowedTagExample` a To without parameters gets its tag from the Call-ID.
- The characters skipped for `tag=` and `branch=` are not looked at, and what follows is taken up to the end of the
  value: the content of a parameter is read exactly when that parameter is the first and the last of its header
  (`Reachability.ParamReadIff`, `HeaderParamReadIff`); in `Requests.MisreadExample` the tag of `a;lr;tag=1` is `ag=1`.
- So the tag added to a To is read back exactly when the To has no ';' (`Reachability.AddedTagIff`), be it one inside
  its URI, and exactly then a later request finds the dialog (`LaterRequestFindsDialog`, `FollowUpFindsDialog`). With
  the To `<sip:b;user=phone>` of `Scripts.ByeScriptExample` the BYE gets a 404 and the call stays ESTABLISHED
  (`Answered.ByeMissesDialog`).
- A response of more than 1024 bytes is cut in the buffer but sent in full length, with bytes from behind the buffer:
  exactly when the echoed values are long enough (`RoundTrip.SentBehindIff`, `Responses.SentWholeIff`), as for the
  packet of 1023 bytes in `Scripts.SentBehindExample`.
- A retransmission can take the last place in the queue from another packet or a delete event. It leaves no trace
  exactly as long as it does not (`Transparency.TwinStepIff`, `SameRoomIff`).
- A Call-ID byte above 127 can make the worker index negative (`Dispatch.IndexInRangeIff`,
  `Dispatch.OutOfRangeExample`, `Scripts.OutOfRangePacket`).

## Model

| member | source | states |
|---|---|---|
| Scanner.GetHeaderValue | sip_message.c:33-63 | the two loops over lines and separators return the header the scan function finds |
| Scanner.ScanFindsFirst | sip_message.c:44-62 | the value found is that of the first CRLF-terminated line starting with the name in any case, inside that line and free of CRLF; None exactly when no line does |
| Scanner.NameInLine | sip_message.c:44-49 | a name that matches at a line start never reaches past the line |
| Letters.MatchesAtIff | sip_message.c:44-49 | a name matches exactly when the same letters stand there, each in either case, by their places in the two alphabets |
| Letters.HeaderInAnyCase | sip_message.c:33-63 | behind any other lines, a header written with its name in any case and any colons, blanks and tabs behind it is found, with its value |
| Letters.ClassifyIff | sip_message.c:551-630 | a word is one of the fourteen methods exactly when it is its name in any case |
| Messages.SipMessage.GetFrom | sip_message.c:99-119 | the memoised pointer is what a fresh scan finds |
| Messages.SipMessage.GetCallId | sip_message.c:71-91 | the memoised Call-ID is what a fresh scan finds |
| Messages.SipMessage.GetTo | sip_message.c:127-147 | the memoised To is what a fresh scan finds |
| Messages.SipMessage.GetVia | sip_message.c:155-175 | the memoised Via is what a fresh scan finds |
| Messages.SipMessage.GetCseq | sip_message.c:183-203 | the memoised CSeq is what a fresh scan finds |
| Messages.SipMessage.GetMethod | sip_message.c:551-630 | the method word of a request is classified once, into one of fourteen methods or none, and remembered; a response has none |
| Messages.SipMessage.ParseFirstLine | sip_message.c:210-334 | same verdict as the specification on every first line, of requests and of responses; a success on a request fixes a known method |
| Messages.SipMessage.CheckStatus | sip_message.c:240-268 | the two loops over the status code and the blank behind it, up to the reason |
| Messages.SipMessage.ScanParam | sip_message.c:342-369 | the loop finds the first parameter behind a header value, if the value is there and not empty; behind the last carriage return its length wraps |
| Messages.SipMessage.GetFromTag | sip_message.c:342-369 | the From tag pointer |
| Messages.SipMessage.GetToTag | sip_message.c:377-404 | the To tag pointer, absent without a parameter |
| Messages.SipMessage.GetBranch | sip_message.c:412-439 | the branch pointer |
| Messages.SipMessage.ParseHeaders | sip_message.c:472-540 | the first missing header or parameter decides the error; success caches exactly what fresh scans find |
| Messages.SipMessage.ParseMessage | sip_message.c:446-546 | the verdict of the specification; on success every cached pointer shows the parsed request |
| Messages.SipMessage.Print | sip_server.c:95-111 | the buffer holds the first 1023 bytes of the formatted response and the length counts all of it |
| SipText.ResponsesRejected | sip_message.c:464-469 | a text starting with SIP never parses to a request; its error is the unknown method exactly when its first line is a response line in order |
| SipText.ParsedShown | sip_message.c:472-540 | in every accepted request the pointers show no more text than their lengths say, and From tag and branch have lengths |
| FirstLines.AtoiReads | sip_message.c:321-322 | a number is read from blanks, a sign or none, and decimal digits |
| FirstLines.VersionedVerdict | sip_message.c:273-333 | a first line with a known method, a URI and a version of two digits is accepted exactly in version 2.0 |
| FirstLines.OtherVersionRejected | sip_message.c:324-328 | another version is the error of the whole message, and there is no request |
| FirstLines.NoLine | sip_message.c:217-222 | without a CRLF the message is malformed |
| FirstLines.NoBlank | sip_message.c:277-282 | without a blank in it the request line is malformed |
| FirstLines.NoMethod | sip_message.c:286-291 | a first word that is no method in any case is an unknown method |
| FirstLines.KnownMethod | sip_message.c:293-312 | without a URI, or without a blank behind it, the request line is malformed; otherwise the version decides |
| FirstLines.NoVersion | sip_message.c:316-321 | a version part without a slash and two characters behind it is malformed |
| FirstLines.StatusLineVerdict | sip_message.c:225-269 | a response is turned away for its version, for a missing status or reason, or else as an unknown method |
| FirstLines.MandatoryVerdict | sip_message.c:473-543 | which header or parameter is missed, in which order, by the names in the packet |
| Reachability.FindParamIs | sip_message.c:349-368 | where the parameter behind a header starts and how long it is, a length that wraps modulo 2^64 included |
| Reachability.NoParamIff | sip_message.c:349-353 | there is none exactly when no ';' follows |
| Responses.NothingToSendIff | sip_server.c:25-29 | the response length is zero exactly when nothing was printed |
| Responses.SentWholeIff | sip_server.c:95-110 | the bytes sent are those the buffer holds exactly when the response fits it |
| ResponseText.PrintedStatus | sip_server.c:101-110 | every response begins with SIP/2.0, its own code in three digits and the words that go with it, for each of the seven codes |
| ResponseText.BufferStatus | sip_server.c:101-110 | and so does the buffer, even when the response was cut |
| ResponseText.PrintedHeaders | sip_server.c:101-110 | behind that come Via, From, To with its tag, Call-ID, CSeq and Content-Length: 0 in this order, and an empty line |
| ResponseText.PrintedLength | sip_server.c:101-110 | Content-Length reads back as 0 |
| ResponseText.ContainsIff | sip_server.c:95-98 | the tag is left out exactly when it stands somewhere from the To value on |
| RoundTrip.ValuesAreClean | sip_message.c:44-58 | a header value has no CRLF inside and no separator in front |
| RoundTrip.PrintReadsBack | sip_server.c:231-240 | Via, From, Call-ID and CSeq read back from a response as in the request, and To with the tag if one was added |
| RoundTrip.ResponseReadsBack | sip_server.c:101-110 | the same from the response buffer, for every accepted request whose response fits |
| RoundTrip.HeadersFit | sip_message.c:44-62 | different headers come from different lines, so together they fit in the text |
| RoundTrip.MandatoryFit | sip_message.c:446-546 | the request line, of at least eleven bytes, and the seven headers share an accepted text without overlap |
| RoundTrip.ResponseLength | sip_server.c:95-110 | a response is at most 44 bytes longer than the request it answers |
| RoundTrip.NeverCut | sip_server.c:59-67 | the response to a request of at most 979 bytes is never truncated |
| RoundTrip.SentBehindIff | sip_server.c:95-110 | the length sent in terms of the echoed values, and exactly when it reaches behind the buffer |
| Reachability.ParamInside | sip_message.c:349-368 | a parameter that starts inside its header value depends on that value alone |
| Reachability.ParamInsideIff | sip_message.c:349-368 | the parameter the search finds starts inside the header exactly when the header has one that does |
| Reachability.HeaderParamIff | sip_message.c:342-404 | what is taken for a header's tag or branch lies behind that header exactly when the header has no parameter that starts inside it |
| Reachability.ParamReadIff | sip_message.c:349-368 | what is read from a value is the content of a parameter exactly when that is the first and the last one, whatever its name |
| Reachability.HeaderParamReadIff | sip_message.c:342-439 | the same for the tag or branch read from a text |
| Reachability.AddedTag | sip_server.c:225-229 | the tag appended to a To without ';' is what the tag parser reads |
| Reachability.AddedTagIff | sip_server.c:225-229 | and exactly then: behind a To with a ';' it never is |
| Reachability.CopiedTags | sip_message.c:342-404 | a later request that copies From and the answered To parses to the same From tag, if that lies inside From, and to the tag handed out exactly when the INVITE's To has no ';' |
| Reachability.FoundIff | sip_utils.c:270-292 | among dialogs with other tags, the tags lead back to the dialog exactly when its From tag was not cut at 64 |
| Reachability.FoundByIff | sip_utils.c:270-292 | any tags lead to a dialog exactly when they are the ones it stores |
| Reachability.InviteTags | sip_server.c:321-331 | the INVITE's dialog carries its From tag and the tag it is answered with |
| Reachability.InviteSends | sip_server.c:308-371 | an accepted INVITE sends 100, then 180 and 200 with the new tag, and keeps the 200 |
| Reachability.LaterRequestFindsDialog | sip_server.c:508-515 | over any run, a later request copying From and To of the 180 or 200 finds that dialog while it lives, exactly when the INVITE's To has no ';' and its From tag is read again as stored |
| Reachability.ByeFindsDialog | sip_server.c:417-446 | and if it is a BYE on a new branch and the dialog is CONFIRMED, it is answered 200 |
| Requests.WrittenParses | sip_message.c:446-546 | every request written in the usual layout, with its tag and branch first, is accepted and parses to what was meant, but for a To tag taken from the Call-ID |
| Requests.FirstRequestIsProper | sip_message.c:412-439 | a branch and a tag written behind plain values make such a request |
| Requests.WordedIsProper | sip_message.c:342-439 | and so do other words of the same length in the place of "tag=" and "branch=" |
| Requests.MisreadExample | sip_message.c:342-439 | an accepted INVITE whose From tag is read as "ag=1" and whose branch as "ranch=z9" |
| Requests.FollowUpFindsDialog | sip_server.c:508-515 | such a request with the From and the answered To of an INVITE is accepted, and finds its dialog after any run exactly when the INVITE's To has no ';' and its From tag was not cut |
| Requests.ToParamBorrowed | sip_message.c:377-404 | a To without parameters takes the tag of the Call-ID behind it |
| Requests.BorrowedTagExample | sip_message.c:377-404 | an accepted INVITE whose To tag is the 7 at the end of its Call-ID |
| Objects.SipDialog.AddTransaction | sip_utils.c:457-482 | the loop fills the first free slot unless the transaction is there or no slot is free |
| Objects.SipDialog.RemoveTransaction | sip_utils.c:489-505 | the loop clears the first slot holding the transaction |
| Objects.SipCall.AddDialog | sip_utils.c:195-220 | the same for a call's 16 slots |
| Objects.SipCall.RemoveDialog | sip_utils.c:227-243 | the loop clears the first slot holding the dialog |
| TransactionLists.TransactionList.Find | sip_utils.c:569-587 | the walk over `next` returns the first transaction in list order with the branch |
| TransactionLists.TransactionList.Create | sip_utils.c:596-614 | a zeroed object with the cut branch becomes the head |
| TransactionLists.TransactionList.Unlink | sip_utils.c:681-709 | the walk unlinks exactly this object and joins its neighbours |
| DialogLists.DialogList.Find | sip_utils.c:270-292 | the walk returns the first dialog in list order with both tags |
| DialogLists.DialogList.Create | sip_utils.c:322-342 | a new dialog becomes the head |
| DialogLists.DialogList.Unlink | sip_utils.c:422-450 | the walk unlinks exactly this dialog |
| CallLists.CallList.Create | sip_utils.c:46-64 | a new call becomes the head |
| CallLists.CallList.Unlink | sip_utils.c:136-165 | the walk unlinks exactly this call |
| Server.SipWorker.constructor | main.c:44-47 | a worker starts empty |
| Server.SipWorker.SetTransactionState | sip_utils.c:787-837 | no effect in the state already reached; COMPLETED and TERMINATED each start their timer |
| Server.SipWorker.SetDialogState | sip_utils.c:528-537 | only the dialog's state changes |
| Server.SipWorker.SetCallState | sip_utils.c:250-259 | only the call's state changes |
| Server.SipWorker.SetTransactionDialog | sip_utils.c:739-748 | the pointer is set and the back link takes a slot, if one is free |
| Server.SipWorker.SetDialogCall | sip_utils.c:512-521 | the pointer is set and the back link takes a slot |
| Server.SipWorker.SetQueue | sip_server.c:475-475 | a new transaction gets the queue of its worker, and nothing else changes |
| Server.SipWorker.SetAckMessage | sip_server.c:487-487 | the ACK is stored, and one that was there before is forgotten |
| Server.SipWorker.Respond | sip_server.c:79-114 | the response is printed with the dialog's tag, stored with its code, and sent once |
| Server.SipWorker.Resend | sip_server.c:253-270 | the stored response goes out unchanged; a failure, or nothing stored, is followed by a 500 |
| Server.SipWorker.RespondDirectly | sip_server.c:50-69 | without a transaction the error goes out without a tag |
| Server.SipWorker.ProcessInvite | sip_server.c:298-376 | every branch: refused at 100, no dialog, no call, 180 or 200 failing, answered, re-INVITE |
| Server.SipWorker.ProcessAck | sip_server.c:384-409 | the transaction becomes TERMINATED |
| Server.SipWorker.ProcessBye | sip_server.c:417-446 | 404 without dialog or call, 403 unless CONFIRMED, else 200 and the call and dialog end |
| Server.SipWorker.ProcessOther | sip_server.c:526-531 | 501 and TERMINATED |
| Server.SipWorker.Dispatch | sip_server.c:508-531 | a transaction without dialog joins the one its tags name, then the method's handler runs |
| Server.SipWorker.ProcessSipRequest | sip_server.c:454-532 | new branch, retransmission, ACK of an INVITE or foreign request, each as in the specification |
| Server.SipWorker.CleanupTransaction | sip_utils.c:620-637 | the slot is cleared, both messages and the transaction are freed |
| Server.SipWorker.DeleteTransactionByPointer | sip_utils.c:681-709 | unlinked and freed if it is in the list |
| Server.SipWorker.DetachTransactions | sip_utils.c:355-366 | the loop terminates and detaches every transaction in a slot |
| Server.SipWorker.CleanupDialog | sip_utils.c:348-372 | the dialog's transactions are detached, its call's slot is cleared, it is freed |
| Server.SipWorker.DeleteDialogByPointer | sip_utils.c:422-450 | unlinked and cleaned up if it is in the list |
| Server.SipWorker.DetachDialogs | sip_utils.c:78-89 | the loop terminates and detaches every dialog in a slot |
| Server.SipWorker.DeleteCallByPointer | sip_utils.c:136-165 | unlinked, its dialogs detached, freed if it is in the list |
| Server.SipWorker.DeleteTransaction | sip_server.c:564-597 | the transaction found by branch goes, then its TERMINATED dialog, then that dialog's TERMINATED call |
| Server.SipWorker.HandleMessage | sip_server.c:624-645 | a rejected message is freed, an accepted one is processed |
| Server.SipWorker.HandleEvent | sip_server.c:646-650 | a delete event is handled |
| WorkerThreads.WorkerThread.Round | sip_server.c:616-655 | one round takes the oldest packet and handles it |
| WorkerThreads.WorkerThread.Receive | main.c:129-161 | a message is freed exactly when it has no Call-ID or the queue is full; any other waits at the end of the queue |
| WorkerThreads.WorkerThread.DeleteTimeout | sip_utils.c:754-764 | the event goes to the queue, or is lost if that is full |
| WorkerThreads.WorkerThread.WaitAckTimeout | sip_utils.c:770-780 | the wait-ACK timer is followed by a delete timer |
| MessageQueue.MessageQueue.constructor | message_queue.c:10-28 | empty, with capacity at least 1 |
| MessageQueue.MessageQueue.Enqueue | message_queue.c:56-77 | appends and succeeds exactly when fewer than `capacity` items are held; `rear + 1` stays congruent to `front + size` |
| MessageQueue.MessageQueue.Dequeue | message_queue.c:85-105 | returns and removes the oldest item |
| MessageQueue.FirstInFirstOut | message_queue.c:56-105 | under every interleaving the accepted items are those taken, in order, followed by those held, at most `capacity` |
| MessageQueue.ProducersKeepOrder | message_queue.c:56-105 | each producer's items come out in its own order |
| Dispatch.StringToIntHash | utils.c:4-17 | the loop adds the signed bytes; no partial sum of a packet overflows an int |
| Dispatch.HashOne | utils.c:11-16 | the hash of one byte is the byte as a signed number |
| Dispatch.HashAppend | utils.c:11-16 | the hash of two texts behind each other is the sum of theirs |
| Dispatch.WorkerOfIs | main.c:149-154 | the index is the remainder by seven with the sign of the hash |
| Dispatch.WorkerExample | main.c:149-154 | the Call-ID ab goes to worker 6 |
| Dispatch.HashBounds | utils.c:11-16 | the sum lies between -128 and 127 times the length and is not negative for ASCII |
| Dispatch.IndexInRangeIff | main.c:149-154 | the index names a worker exactly when the hash is not negative or divides by seven |
| Dispatch.AsciiInRange | main.c:149-154 | for ASCII Call-IDs the index is 0 to 6 |
| Dispatch.OutOfRangeExample | main.c:149-154 | a Call-ID of one byte 255 has index -1 |
| Partition.EventKeepsPartition | main.c:138-158 | every event keeps each worker's messages, and the Call-IDs its calls were made from, within those that hash to it, and its transactions and timers pointing at its own queue |
| Partition.RunKeepsPartition | main.c:138-158 | the same over every run of the whole server |
| Partition.CallIdInOrder | main.c:138-158 | the packets of a Call-ID are handled by one worker in the order they were accepted; no other worker sees one |
| Partition.WorkersAreAlone | sip_server.c:604-658 | however workers, socket thread and the shared timers interleave, what each worker does is a run of its own |
| Partition.EventsStayAtHome | sip_utils.c:754-764 | with events delivered to the queue they name, the events a worker's transactions made are, branch by branch, in its timers, in its queue, handled by it or lost |
| WorkerModel.AddSlot | sip_utils.c:457-482 | the object is in the slots afterwards exactly when it was or a slot was free; never twice |
| WorkerModel.RemoveSlot | sip_utils.c:489-505 | afterwards the object is in no slot, if it was in one at most |
| WorkerModel.FindTxn | sip_utils.c:569-587 | a found transaction matches; None means no transaction in the list matches |
| WorkerModel.FindDialog | sip_utils.c:270-292 | a found dialog matches both tags; None means none in the list does |
| SipTypes.FoundAgainIff | sip_utils.c:609-610 | an identifier is found again under its own text exactly when it was not cut |
| Outcomes.InviteRefused | sip_server.c:308-329 | an INVITE that gets no dialog leaves COMPLETED and nothing else behind |
| Outcomes.InviteAccepted | sip_server.c:331-371 | an INVITE that gets a dialog leaves CONFIRMED with ESTABLISHED, or TERMINATED with no call or a FAILED one |
| Invariants.RequestKeepsInv | sip_server.c:454-532 | an admissible request keeps lists, links both ways, the coupling of the three states, and distinct branches |
| Invariants.RequestKeepsConsistentIff | sip_utils.c:478-481 | lists, links both ways and the coupling of the three states survive a request exactly when the dialog its transaction joins has a free slot |
| Invariants.RequestKeepsBranchesIff | sip_utils.c:596-614 | live transactions keep distinct branches exactly when none stores what the new one will |
| Invariants.ShortBranchFits | sip_utils.c:569-587 | a branch of at most 64 characters is stored by no transaction its search does not find |
| Invariants.LongBranchOpensTwo | sip_utils.c:609-610 | repeating a request with a longer branch opens a second transaction that stores the same |
| Invariants.RequestKeepsInvIff | sip_server.c:454-532 | the whole invariant survives exactly when both conditions hold |
| Invariants.ByeEffect | sip_server.c:432-440 | an accepted BYE ends the call and the dialog and stores the 200 |
| Invariants.OneDialog | sip_server.c:333-345 | no two dialogs share a call |
| Deletion.DetachFromEffect | sip_utils.c:355-366 | the loop sweeps exactly the transactions in the slots from its index on |
| Deletion.DropDialogEffect | sip_server.c:585-596 | the dialog is gone, its transactions swept, its call gone exactly when TERMINATED |
| Deletion.DeleteFoundEffect | sip_server.c:576-596 | the transaction goes, and then exactly its TERMINATED dialog with what that takes along |
| Deletion.DeleteKeepsInv | sip_server.c:564-597 | every delete event keeps the invariant |
| WorkerSystem.StepKeepsInv | sip_server.c:604-658 | every step of worker, queue and timers keeps the invariant |
| WorkerSystem.RunKeepsInv | sip_server.c:604-658 | so does every run |
| Progress.ServedMoves | sip_server.c:454-532 | a request moves its own transaction at most once, forward, with one timer started |
| Tokens.UnservedStays | sip_server.c:479-505 | a request answered or dropped on the spot changes no state and no timer |
| Tokens.StepKeepsCovered | sip_utils.c:787-837 | every COMPLETED or TERMINATED transaction has a delete event in a timer, the queue or the losses, even when branches are reused |
| Accounting.StepKeepsBooks | sip_utils.c:787-837 | branch by branch, delete events made are in timers, queued, handled or lost, and a transaction creates at most two |
| Accounting.StepKeepsRouted | sip_utils.c:804-833 | every transaction and timer keeps naming the queue of its own worker |
| Ownership.StepKeepsConserved | sip_server.c:462-505 | a received message is queued, held by one field of one transaction, displaced or freed, in exactly one way |
| Ownership.HeldOnce | sip_utils.c:616-637 | what a live transaction refers to is not freed and held by nothing else |
| Forward.StepForward | sip_utils.h:24-62 | transactions, dialogs and calls move forward in the declared order, tags and links stay, FAILED stays FAILED |
| Forward.RunForward | sip_utils.h:24-62 | the same over whole runs; addresses are not handed out twice |
| ByeOnce.StepEndsOnce | sip_server.c:417-446 | at most one BYE per dialog is ever answered 200, and a dialog so answered stays TERMINATED with its call until it is gone |
| ByeOnce.NewByeAnswered | sip_server.c:424-441 | a BYE on a new branch is answered once: 200 in a CONFIRMED dialog, 403 in a TERMINATED one with a call, else 404 |
| ByeOnce.LaterByeRefused | sip_server.c:417-446 | over any run: once a BYE was answered 200 in a dialog, every later BYE on a new branch that names it gets exactly 403 while it is allocated |
| Answers.OtherGets501 | sip_server.c:526-531 | a request that is no INVITE, ACK or BYE is answered once, with its own 501, and is TERMINATED |
| Answers.ByeAnswers | sip_server.c:417-446 | a BYE is answered 404 without a dialog or its call, 200 in a CONFIRMED dialog, else 403 |
| Answers.ByeEndsCall | sip_server.c:432-445 | the dialog and the call end exactly when that is the 200 |
| Answers.InviteAnswers | sip_server.c:308-371 | a first INVITE is sent 100, 180 and 200 up to the first that fails; every failure ends with a 500 |
| Answers.ReInviteWaits | sip_server.c:372-375 | an INVITE that names a dialog is not answered and waits |
| Answers.NoTransactionGets500 | sip_server.c:463-471 | a request for which no transaction can be made gets a 500 without a tag, and is freed |
| Answers.AgainAnswered | sip_server.c:494-504 | a request with the CSeq and sender of the one that made the transaction gets the stored response again, or a 500, and is freed |
| Answers.OtherDropped | sip_server.c:479-492 | any other on the branch is freed and changes nothing, unless it is an ACK for an INVITE |
| Answers.AckKept | sip_server.c:484-488 | such an ACK is kept and ends the transaction |
| Answers.InviteAgainGets200 | sip_server.c:494-504 | an answered INVITE that is received again is sent its 200 again |
| Answers.StateStartsTimer | sip_utils.c:787-837 | a change to COMPLETED or TERMINATED, and nothing else, starts a timer of 5000 ms |
| Answers.EventDeletesTransaction | sip_server.c:574-583 | a delete event takes the transaction from the list and from its dialog, frees its messages, and leaves every dialog that is not TERMINATED, and every call |
| Answers.EventDropsDialog | sip_server.c:585-596 | a TERMINATED dialog goes with it: its other transactions become TERMINATED without a dialog, and its call goes exactly when TERMINATED |
| Answers.FirstTxnFound | sip_utils.c:569-587 | the first transaction of the list with the branch is found |
| Answers.FirstDialogFound | sip_utils.c:270-292 | the first dialog of the list with both tags is found |
| Drain.StepCost | sip_utils.c:754-837 | every step of worker or timers lowers the cost; a packet adds at most 7 |
| Drain.RunIsPaidFor | sip_server.c:564-597 | over any run the worker and its timers take at most seven steps a packet plus what was owed |
| Drain.NotStuck | sip_server.c:616-655 | until queue and timers are empty some step can be taken |
| Drain.RestingPlace | sip_server.c:564-597 | at rest without losses: IDLE re-INVITEs in CONFIRMED dialogs with ESTABLISHED calls, and FAILED calls |
| Drain.DialogOfCall | sip_server.c:585-596 | an ESTABLISHED call has a CONFIRMED dialog and a TERMINATED call a TERMINATED one |
| Drain.StuckOnlyByLoss | sip_utils.c:763-763 | a COMPLETED or TERMINATED transaction left at rest lost its own delete event |
| Deadline.StepTimely | sip_utils.c:804-833 | every punctual step keeps every deadline |
| Deadline.RemovedInTime | sip_utils.h:16-17 | a transaction is gone 5000 ms after TERMINATED and 10000 ms after COMPLETED |
| Transparency.ResendSendsStored | sip_server.c:253-270 | a resend that succeeds sends the stored response to the stored address and changes nothing else |
| Transparency.RepeatedMarks | sip_server.c:494-504 | the packets that are retransmissions when their turn comes are told by their addresses |
| Transparency.TwinStepIff | message_queue.c:56-77 | without retransmissions an arrival or a delete event fares the same exactly when it finds room with them and without them, or neither way |
| Transparency.SameRoomIff | message_queue.c:56-77 | that is, when the queue is not full or holds no retransmission |
| Transparency.RetransmissionsLeaveNoTrace | sip_server.c:479-505 | any run in which retransmissions take no place in the queue from others, without the packets that were retransmissions when their turn came, is a run too and gives the same objects, links, states, timers, losses and queue |
| Theorems.StepGood | sip_server.c:604-658 | all invariants together survive every step |
| Theorems.ReachableGood | sip_server.c:604-658 | all invariants hold in every state any run from the start reaches |
| Theorems.DrainFrom | sip_server.c:564-597 | from any reachable state without new packets the steps are bounded, and at the end only live objects are left |
| Theorems.UnfreedAtRest | sip_utils.c:620-637 | at rest exactly these received messages are not freed: re-INVITEs that wait, and ACKs displaced by later ones |
| Theorems.DeadlinesHold | sip_utils.h:16-17 | the deadlines over every punctual run |
| Limits.FixedSizes | sip_utils.h:14-15 | in numbers: 32 and 16 slots, 64 characters of a branch or From tag, 256 of a Call-ID, a queue of 1024 |
| Limits.EventDeletesIff | sip_server.c:574-583 | a delete event removes a transaction exactly when it has the branch, whatever its state |
| Limits.StepFreesTerminated | sip_server.c:591-595 | only TERMINATED calls are ever freed |
| Limits.CallFailsIff | sip_server.c:341-371 | a request makes a call FAILED exactly when it is an INVITE that gets a dialog and a call and its 180 or 200 cannot be sent |
| Limits.StepFailsIff | sip_server.c:604-658 | and no other step does |
| Limits.FailedStays | sip_server.c:591-595 | a FAILED call stays for ever |
| Limits.FailedFromStart | sip_server.c:341-371 | from the start, a first INVITE with a failing 180 or 200 leaves a FAILED call in every run |
| Limits.RetransmissionGets500Iff | sip_server.c:496-503 | a retransmission is answered with a new 500 exactly when nothing was stored or the resend fails |
| Limits.NewAckStoresNothing | sip_server.c:384-409 | an ACK on a new branch is not answered and nothing is stored for it |
| Limits.RepeatedAckGets500 | sip_server.c:496-503 | its repetition is answered with a 500 |
| Limits.AckAnsweredIff | sip_server.c:462-505 | an ACK is answered exactly when no transaction can be made for it or it is a retransmission |
| Limits.DisplacedIff | sip_server.c:484-488 | a message is forgotten unfreed exactly when an ACK arrives for an INVITE whose transaction holds one already |
| Limits.DisplacedForEver | sip_server.c:487-487 | such a message is never freed in any run |
| Leftover.LeftoverEventDeletes | sip_server.c:564-597 | a run from the start in which the event left over from a COMPLETED transaction deletes a later one with its branch one millisecond after that was TERMINATED |
| Leftover.SecondAckDisplaces | sip_server.c:484-488 | a run from the start in which the second ACK of an INVITE leaves the first one unfreed |
| Leftover.ScriptExample | sip_message.c:446-546 | texts of packets that make these runs |
| Strays.GraphIff | sip_utils.c:457-482 | the graph is whole exactly when every pointer is valid and no transaction lacks a slot in its dialog |
| Strays.RequestKeepsSafe | sip_server.c:454-532 | any request at all, with or without a free slot, keeps every pointer valid |
| Strays.NoRoomStrays | sip_utils.c:457-482 | a request that finds no slot leaves a transaction that points at the dialog without one |
| Strays.DeleteKeepsSafeIff | sip_utils.c:348-372 | a delete event keeps every pointer valid exactly when the dialog it drops, if any, has no such transaction left |
| Strays.StrandedDangles | sip_utils.c:348-372 | a transaction left so points at the freed dialog |
| Strays.StepKeepsSafeIff | sip_server.c:604-658 | every other step keeps every pointer valid |
| Strays.PathKeepsSafe | sip_server.c:604-658 | so do all paths without such an event, whatever slots their requests find |
| Overfull.InTurnFills | sip_server.c:298-306 | from any state, re-INVITEs take the free slots of a dialog one by one and keep them |
| Overfull.FurtherRequestBreaks | sip_utils.c:457-482 | the next request that names the dialog breaks the graph |
| Overfull.ByeDangles | sip_server.c:564-597 | if that is a BYE, the next delete event of the dialog leaves its transaction pointing at the freed dialog |
| Overfull.FullDialogDangles | sip_server.c:564-597 | a path from the start, of an INVITE, 31 re-INVITEs, a BYE and one delete event, that ends so |
| Answered.FirstAnswered | sip_server.c:298-376 | the whole state after a first INVITE that was answered |
| Answered.StrangerByeGets404 | sip_server.c:417-431 | a BYE that names no dialog is answered 404 and changes no dialog and no call |
| Answered.ByeMissesDialog | sip_server.c:508-515 | a run from the start in which a BYE copies the To of the 200, the INVITE's To having a ';', is answered 404, and the call stays ESTABLISHED |
| Scripts.ByeScriptExample | sip_message.c:446-546 | texts for this run, with the To <sip:b;user=phone> |
| Scripts.FillScriptExample | sip_message.c:446-546 | texts for the path that fills a dialog |
| Scripts.LongBranchExample | sip_utils.c:609-610 | an INVITE with a branch of 65 characters that, received twice, opens two transactions that store the same |
| Scripts.SentBehindExample | sip_server.c:168-240 | a packet of 1023 bytes whose 180 has 1025, one from behind the buffer |
| Scripts.OutOfRangePacket | main.c:149-154 | a packet the parser would accept that is dispatched to worker -1 |

## Left out

- Sockets, `select`, `recvfrom`, address setup and `sendto` itself: foreign calls; sending is a result in the `Oracle`.
- `timer_manager.c`: replaced by multisets of one-shot timers with deadlines, one for each worker's books.
- Mutex and condition variable: each locked region is one atomic step, and waiting is a step that is not enabled.
- `rand`: the generated tag is an arbitrary string; distinctness is assumed where it matters.
- `process_sip_response`: every response is rejected before it matters.
- Version, URI, status and reason fields of a message: they are checked, and nothing reads them afterwards.
- `delete_all_*`, `delete_*_by_id`, `find_call_by_id` and `destroy_message_queue`: not called by the running server.
- Bytes behind the text: the rest of the 1024-byte buffer is zeros, and memory behind the buffer, which a pointer
  set behind the last carriage return can reach, reads as nothing (`SipText.CText`).
- Lengths are a 64-bit `size_t`; the cast of a wrapped length to int in a format leaves no limit.
- `atoi` on a number beyond the range of int, which C leaves undefined: `SipText.Atoi` reads it without bound.
- Reuse of freed addresses by `malloc`: addresses are told apart for good.
- A worker's number stands for the address of its queue.
- Packets that arrive without a Call-ID are freed by the socket thread and appear in no worker's books.
- Logging and state-name tables.
- Reachability.LaterRequestFindsDialog: assumes distinct tag pairs, a response that fits its buffer, and a tag that does
  not occur in the request already, which would keep the server from adding it.
- Transparency.RetransmissionsLeaveNoTrace: says nothing of what happens after a retransmission took the last place in
  the queue from another packet or a delete event; from then on the two runs differ (`TwinStepIff`).
