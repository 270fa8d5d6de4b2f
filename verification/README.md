# Auction server and client: a verified model

The system is an auction server that keeps its whole state as small files under `server/users` and
`server/auctions`, and a command-line client. Accounts, lists and records travel over UDP; opening, bidding,
closing and fetching an asset travel over TCP, each in a forked child that holds two directory locks. An auction's
end is lazy: no process ends it when its time runs out; the first request that looks afterwards writes the END file.

`dafny verify dfyconfig.toml` checks everything. The modules, from the ground up:

| module | contents |
|---|---|
| Text, Domain | decimal numbers, padding, words, name order; entities, requests, replies, runs |
| LazyServer | the state and one function per request, with END written lazily |
| IdealServer | a server that ends auctions by the clock and whose queries change nothing; the lazy server refines it |
| Invariants, Histories | what every reachable state satisfies; theorems over whole runs |
| Witnesses | runs of a fresh server that show where its answers depart from what one would expect |
| Interleaving | children, locks and the unlocked parent, stepping through their looks at and writes of files |
| Schedules, Overlaps | theorems over whole schedules: bids, children left alone; what overlapping looks at END can do |
| FileText, Wire, Requests, Grammars | the text of files, replies and requests; exactly which streams are taken for which request |
| Client, RoundTrips | the client's token reader and loops; the client recovers what the server printed |
| Streams | sockets that deliver bytes in arbitrary chunks; field, file and write loops |
| Paths, FileView | the path names; how the tree of files stands for the state |
| Handling, FileServer | a class over a map from path strings to files, whose methods are the helpers and handlers |
| Protocol | the text every request calls for, from the requests before it alone; the servers answer with it |
| Serving, EndToEnd | the main loop on arbitrary messages; client and server together |
| Outcomes, Endings | over the main loop: each line, literally, exactly under its condition on the files; when END and directories appear |
| Layout | every path and every text of the tree, literally |
| Reports | the client's messages after LIN, LOU, UNR, OPA and BID, and exactly when they are true |

The chain of the main argument: `Serving.Serve` shows that the path-keyed server, on any sequence of datagrams and
connections, answers with the printed replies of `LazyServer`; `EndToEnd.FilesRefineIdeal` replaces those by the
replies of `IdealServer`; the theorems of `Invariants` and `Histories` speak about the same runs. `Protocol` knows no
server: it follows one account per user and the auctions made by the requests, and spells every reply out;
`Protocol.EveryReply` and `Outcomes.EveryReplySent` show that these are the replies sent, and the lemmas of `Outcomes`
named after a request say which line is sent exactly when. Directory scans
return entries in an arbitrary order, so no result depends on that order. Time is an input of every request and
never runs backwards; a request may read it once to check (`t1`) and once to stamp a file (`t2`). What overlapping
connections can and cannot change is proved in `Interleaving`, `Schedules` and `Overlaps`; `Schedules.ChildDoesItsHandler`
ties the steps of a child to the handlers: in every schedule a child that is about to start finds the files of a state,
and left alone it leaves those of the state its handler leaves, contents of START, bids, assets and END included.

## What turned out false

* An open answered NOK need not leave the state alone: when the upload fails, the auction, its START file and the
  owner's entry stay (`NokLeavesNothing` gives the exact condition). An asset of size 0 always counts as a failed
  upload, because the stored byte count is used as the success flag (`EmptyAssetIsRefused` is such a run).
* The emptiness test before listing discards one directory entry, so LST answers NOK exactly when there is no auction
  or the only one is the entry read first (`ListIsTruthful`; `ListMissesOnlyAuction` is such a run).
* The parser of identifiers ignores what follows a first newline (`AidGrammar`, `AidIgnoresTail`). The other UDP
  parsers ignore what follows the closing newline: an accepted text is the client's exactly when it is no longer than
  that (`UdpTails`), and any tail leaves the request as it was (`TailsAreIgnored`).
* "No bid after END" and "END is written once" hold request by request (`EndIsWriteOnce`) but not for overlapping
  requests. From the moment a bidder or closer has seen no END until it writes, an END is there exactly if the parent,
  having read its clock after the deadline, wrote one in between (`WriteMeetsEnd`, `OverdueIsLate`). `LateBid` is a
  schedule from the empty server, with a clock that never runs backwards, in which a bid lands in an ended auction. The
  END of a close stays unless the parent writes afterwards, and then holds the scheduled end (`EndAfterClose`);
  `LostClose` is such a schedule. END is final once nobody is in the middle of a look at the auction
  (`SettledEndStays`).
* File names "." and ".." pass the name check but cannot be opened for writing. Asking for the asset of an existing
  auction is answered with nothing exactly when it was opened with such a name (`NoAssetExactly`, `DotHasNoAsset`).
* The client spells one reply to CLS `RCL OAU` (client/functions.c:199) where the server sends `RCL EAU`
  (server/tcp_functions.c:169), and does not know NOK; it reports the outcome of a close exactly when the reply is
  neither (`CloseReported`, `CloseOutcomeReported`). The model follows the server.
* Some of the client's other messages are wrong in exactly one case each (`LoginReported`, `LogoutReported`,
  `UnregisterReported`, `OpenReported`): a user who is already logged in hears that the right password does not match;
  a logged-in user who gives a wrong one hears that it was not logged in; and one whose file was empty, cut short or
  has a dot name hears that the auction could not be started although it was. After BID two are wrong (`BidReported`):
  a wrong password is reported as an auction that is not active, and a bid that is too low as one against which a
  larger bid stands, also when only an equal bid or the start value does. "User was not registered" is never said
  after UNR, because the server never sends that line.
* CLS finds an existing auction exactly when its number is written with three digits; one or two digits are answered
  EAU, and no digits at all EOW, since the directory of all auctions exists (`CloseIdentifiers`; the runs are
  `ShortIdentifierIsUnknown` and `NoIdentifierIsForeign`).

## Model

| member | source | states |
|---|---|---|
| IdealServer.LazyRefinesIdeal | server/aux_functions.c:468-512 | over every run with a nondecreasing clock, every reply of the server that writes END only when it happens to look is the reply of a server that ends each auction at start + time active by itself |
| IdealServer.StepSimulates | server/aux_functions.c:468-512 | one request answered by both servers gets the same reply and keeps their states related |
| IdealServer.QueriesAreInvisible | server/udp_functions.c:100-197 | dropping or inserting any LST, LMA, LMB, SRC and SAS requests anywhere changes no reply to any other request |
| EndToEnd.FilesRefineIdeal | server/server.c:192-246 | every well-formed message handled over the files is answered, byte for byte, with the printed reply of the ideal server at that point of the run |
| Protocol.AccountsFollow | server/udp_functions.c:3-96 | over every run, password and login files of a user are what its own LIN, LOU and UNR requests make of an account that is unregistered, signed in or signed out |
| Protocol.AuctionsFollow | server/tcp_functions.c:3-183 | over every run, the auctions of the ideal server are those the requests make: opens by signed-in users in the order they came with the fields of the request and their stamp, bids above all others while the auction runs, closes by the host |
| Protocol.EveryReply | server/server.c:192-246 | over every run, every reply is, word for word, the text called for by the requests before it: accounts, running flags, records, bids, closes, numbers granted and assets |
| Outcomes.EveryReplySent | server/server.c:135-185 | the same for every reply of the main loop to whatever arrives |
| Outcomes.LoginExactly | server/udp_functions.c:19-34 | LIN is answered "RLI REG" exactly when no password is on file, "RLI OK" exactly when it is the given one and the user is logged out, "RLI NOK" in all other cases |
| Outcomes.LogoutExactly | server/udp_functions.c:53-64 | LOU is answered "RLO OK" exactly when the password on file is the given one and the user is logged in, "RLO UNR" exactly when none is on file, "RLO NOK" in all other cases |
| Outcomes.UnregisterExactly | server/udp_functions.c:83-94 | UNR is answered "RUR OK" exactly when the password on file is the given one and the user is logged in, "RUR NOK" otherwise |
| Outcomes.RegisteredByReplies | server/udp_functions.c:19-94 | a user is unregistered exactly when each line REG or OK to a LIN of it was followed by a line OK to an UNR of it |
| Outcomes.BidExactly | server/tcp_functions.c:114-131 | BID is answered "RBD ACC" exactly when the value was not on file before and is after; "RBD NLG", "RBD NOK", "RBD ILG" and "RBD REF" exactly under their conditions on login, password, running, host and largest bid |
| Outcomes.CloseExactly | server/tcp_functions.c:160-177 | CLS is answered "RCL OK" exactly when the logged-in host with its password names a running auction, "RCL END" exactly when it names one that is over; EOW, EAU, NOK and NLG exactly under their conditions |
| Outcomes.OpenExactly | server/tcp_functions.c:30-45 | OPA is answered "ROA NLG" exactly when the password on file is the given one and the user is logged out, "ROA OK" with the next number exactly when user, password, login and upload are right, "ROA NOK" in all other cases |
| Outcomes.OpenStreamExactly | server/tcp_functions.c:8-45 | the same from the bytes of the stream: the file is right when it is not empty, all announced bytes came and a newline follows them |
| Outcomes.OpenedOnFile | server/aux_functions.c:254-301 | an open by a logged-in user with its password adds one auction under the next number with the fields of the request, its stamp, no bids and the received bytes, whatever the reply; any other open adds none |
| Outcomes.OnFileIffOpened | server/aux_functions.c:450-465 | an auction is on file exactly when an earlier open by a logged-in user with its password came when it was the next number |
| Outcomes.AssetExactly | server/tcp_functions.c:57-84 | SAS is answered "RSA NOK" exactly when its text is not the three-digit number of an auction on file; every other reply starts with "RSA OK" |
| Outcomes.OwnListExactly | server/udp_functions.c:110-122 | LMA and LMB are answered NLG exactly when the user is logged out, NOK exactly when it is logged in and hosts, or has bid on, nothing |
| Outcomes.ListExactly | server/udp_functions.c:152-172 | LST is answered NOK exactly when no auction is on file other than the directory entry read first |
| Outcomes.RecordExactly | server/udp_functions.c:174-197 | SRC is answered NOK exactly when no auction of that number is on file |
| Outcomes.MalformedDatagram | server/server.c:192-226 | which error line a datagram that is no request gets |
| Outcomes.MalformedStream | server/server.c:228-246 | which line a stream that is no request gets |
| Outcomes.MalformedExactly | server/server.c:192-246 | over the main loop, a text that is no request gets that line and changes no file |
| Endings.EndOnFileExactly | server/aux_functions.c:468-512 | END of an auction changes exactly by a request that looks at it while there is none: it then holds the scheduled end if that has come, or the moment of a close before it |
| Endings.DirectoryIffRegistered | server/aux_functions.c:3-24 | a user has a directory exactly when one of its LINs was answered REG, unregistered since or not |
| Layout.UserOnDisk | server/aux_functions.c:3-24 | the paths of a user's directory, pass.txt, login.txt and index entries, letter by letter, when each exists and what is in it |
| Layout.AuctionOnDisk | server/aux_functions.c:259-293 | the paths of an auction's directory, START and END, letter by letter, when each exists and every word in it |
| Layout.ContentOnDisk | server/aux_functions.c:577-603 | the paths of bid files and assets, letter by letter, when each exists and what is in it |
| Reports.LoginReported | client/functions.c:33-45 | what the client says after LIN is true exactly unless the user was already logged in with that password |
| Reports.LogoutReported | client/functions.c:59-66 | what it says after LOU is true exactly unless a logged-in user gave a wrong password |
| Reports.UnregisterReported | client/functions.c:82-90 | the same for UNR; that the user was not registered is never said |
| Reports.OpenReported | client/functions.c:166-174 | what it says after OPA, the number included, is true exactly unless a logged-in user with its password sent a file that is not right |
| Reports.BidReported | client/functions.c:323-333 | what it says after BID is true except exactly for a wrong password on a running auction and for a bid that is too low with no larger bid on file |
| Serving.Serve | server/server.c:135-185 | from two empty directories, on any sequence of datagrams and connections, the files stand for the state reached by the requests among them and every reply is the printed reply of the state model or the parser's error line; followed until a datagram finds more than 999 auctions, which takes as many connections |
| Serving.ServeOne | server/server.c:144-182 | one message: parsed as the grammar says, answered as the state model says, invariant kept |
| Serving.AtMostOneMore | server/aux_functions.c:254-301 | no request creates more than one auction, and only an open creates any |
| Invariants.StepKeeps | server/aux_functions.c:98-108 | every request keeps the invariant: dense identifiers, both indexes in agreement with the auctions, login only beside a password, bids by registered others than the host, above the start value, stamped in the order of their values |
| Invariants.ReachedInv | server/aux_functions.c:254-301 | every reachable state satisfies that invariant, failed uploads, unregistering and re-registering included |
| Invariants.IdsAreDenseAndFresh | server/aux_functions.c:450-465 | identifiers are exactly 1..n and the scan for the maximum gives n + 1, even after opens answered NOK |
| Invariants.IndexesAgree | server/aux_functions.c:516-532 | an identifier is in hosted/ exactly when START names that owner, in bidded/ exactly when that user has a bid on it, and never in both |
| Invariants.RunGrows | server/aux_functions.c:577-603 | along a run no auction, bid, asset, END or index entry is ever removed or changed |
| Invariants.EndIsWriteOnce | server/aux_functions.c:475-511 | once END is there, the auction never changes again and no later bid on it is accepted |
| Histories.BidLog | server/aux_functions.c:535-603 | accepted bids strictly increase in order of acceptance and exceed the start value; there is one bid file per ACC and no other; the largest on file is the last accepted |
| Histories.AcceptedBidSeconds | server/aux_functions.c:589-592 | the file of an accepted bid holds the bidder, the stamp and its seconds, which lie between 0 and time active - 1 + (t2 - t1) |
| Histories.EarlyCloseSeconds | server/aux_functions.c:607-634 | after a close answered OK, END holds the stamp and its seconds for good, between 0 and time active - 1 + (t2 - t1) |
| Histories.OneReadingBounds | server/aux_functions.c:490-507 | with one clock reading per request, bid seconds stay below time active, END seconds do not exceed it, and no bid is later than END |
| Histories.SecondsFollowValues | server/aux_functions.c:577-603 | bid seconds never decrease as bid values rise |
| Histories.EndContents | server/aux_functions.c:490-508 | an END file holds the scheduled end and time active, or the moment of a close answered OK |
| Histories.OnlyOwnerCloses | server/tcp_functions.c:168-175 | a close answered OK comes from the owner named in START |
| Histories.SessionsAlternate | server/udp_functions.c:19-94 | successful entries and exits of a user strictly alternate, starting with an entry, and login.txt is there exactly after an entry |
| Histories.SuccessNeedsSession | server/tcp_functions.c:114-131 | an open, bid or close succeeds only between an entry of that user and the next exit |
| Histories.AssetStaysAvailable | server/aux_functions.c:383-447 | after an open answered with an identifier, every later SAS for it gives that file name and those bytes |
| Histories.ListIsTruthful | server/aux_functions.c:304-320 | LST answers NOK exactly when there is no auction, except when the only auction is the directory entry read first |
| Witnesses.ListMissesOnlyAuction | server/aux_functions.c:304-320 | a run of a fresh server in which an auction is opened and LST is then answered NOK |
| Histories.NokLeavesNothing | server/aux_functions.c:259-299 | an open answered NOK leaves the state as it was, except exactly when a logged-in user's upload fails |
| Witnesses.EmptyAssetIsRefused | server/aux_functions.c:246-251 | a run in which a complete upload of an empty file is answered NOK although auction 1 now exists |
| Histories.CloseIdentifiers | server/tcp_functions.c:164-177 | over runs, a close by a logged-in user with the right password on the number of an existing auction is answered EAU exactly when that is written with one or two digits; on any other number EAU, or EOW exactly when nothing is written |
| Witnesses.ShortIdentifierIsUnknown | server/aux_functions.c:371-380 | a run in which auction 1 is open and closing "1" is answered EAU |
| Witnesses.NoIdentifierIsForeign | server/aux_functions.c:371-380 | a run in which closing without an identifier is answered EOW |
| Histories.NoAssetExactly | server/aux_functions.c:383-407 | over runs, SAS on an existing auction is answered with nothing exactly when its file name is "." or ".." |
| Witnesses.DotHasNoAsset | server/aux_functions.c:221-229 | a run in which an auction is opened with the file name "." and SAS is answered with nothing |
| Interleaving.MutualExclusion | server/server.c:173-179 | in every schedule at most one child is inside process_tcp_request |
| Interleaving.NoDeadlock | server/aux_functions.c:703-723 | while a child has not exited, some child can make a move |
| Interleaving.MovesFinish | server/server.c:171-182 | each move of a child brings it nearer to its exit, at most twelve moves away, and no other action changes how far it is |
| Interleaving.EveryInterleavingIsSerial | server/server.c:167-182 | whatever the schedule, auction directories, START, bids, assets and both indexes are those of the finished children run one after another in lock order, each with the outcome its own check steps had, plus the part the one inside has done |
| Interleaving.QuietStatesAreConsistent | server/aux_functions.c:254-301 | whenever no child is between its locks, identifiers are 1..n, every auction has START, and both indexes agree with the auctions |
| Interleaving.IdsNeverCollide | server/aux_functions.c:254-270 | in every state, busy or not, identifiers are 1..n and the directory about to be made is n + 1 |
| Interleaving.BidsOnlyRise | server/aux_functions.c:535-603 | no single action removes or overwrites a bid file, and a new one is above the start value and every bid on file |
| Interleaving.EndsRemain | server/aux_functions.c:475-511 | no action removes an END file, and only the actions that write END make or change one |
| Interleaving.AtomicIsSerial | server/tcp_functions.c:117-131 | the request-at-a-time model changes the files that only children write exactly as the serial replay does |
| Schedules.BidLogOfSchedule | server/aux_functions.c:535-603 | over every schedule, the bid files written into an auction strictly increase and exceed its start value, each is kept and there are no others, and the largest on file is the last written |
| Schedules.AloneIsStep | server/tcp_functions.c:30-183 | from the files of any state, a child that runs from its first step to its last without interruption leaves START, bids, assets, indexes, accounts and END files, contents included, as the handler of its request leaves the state, and its checks come out as the handler's, whatever clock readings its steps see |
| Schedules.AloneInSchedule | server/server.c:173-179 | in every schedule the child inside can go on alone to its end, by its own steps only, leaving what those steps leave |
| Schedules.ChildDoesItsHandler | server/server.c:173-179 | in every schedule a child about to take its first step finds the files of some state and, let run to its end, leaves those of the state its handler would leave, its checks coming out as the handler's |
| Schedules.FirstStepHasState | server/server.c:173-176 | whenever a child is about to take its first step, the files are those of a state |
| Schedules.ParentWrites | server/udp_functions.c:19-94 | LIN, LOU and UNR change the files as the parent's single writes do one after another |
| Schedules.ParentLooks | server/aux_functions.c:468-512 | the parent's three steps of a look, one after another, change the files as noticing an overdue end does |
| Overlaps.WriteMeetsEnd | server/tcp_functions.c:117-175 | over every schedule, from the action by which a bidder or closer sees no END until it writes its bid or END, there is an END exactly if the parent has written one in between |
| Overlaps.OverdueIsLate | server/aux_functions.c:490-500 | whenever the parent is about to write END, some reading of its clock was at or after the deadline of that auction |
| Overlaps.OnlyParentEnds | server/aux_functions.c:468-512 | while a child relies on having seen no END, one action makes an END appear exactly if it is the parent writing it, and changes nothing else the child depends on |
| Overlaps.EndAfterClose | server/aux_functions.c:607-634 | over every schedule, the END of a close holds its stamp and seconds for good, unless the parent writes END afterwards; then it holds the scheduled end |
| Overlaps.SettledEndStays | server/aux_functions.c:475-511 | over every schedule, END stays as it is from the first moment on at which nobody is in the middle of a look at the auction |
| Overlaps.BidAfterEnd | server/server.c:144-158 | from any clocked schedule that has brought an acceptable bidder past its look, one query of the parent after the deadline lets the bid be written into the ended auction |
| Overlaps.LateBid | server/server.c:144-182 | such a schedule from the empty server: clock read at second 59 of 60, query at 60, bid written at 60 |
| Overlaps.CloseUndone | server/aux_functions.c:475-508 | from any clocked schedule that has brought a closer to its write, a look of the parent around that write replaces the END of the close, which is answered OK, by the scheduled one |
| Overlaps.LostClose | server/server.c:144-182 | such a schedule from the empty server: closed OK at second 59, END holds second 60 in the end |
| FileText.StartRoundTrip | server/aux_functions.c:288-293 | each of the four readers of START gets exactly the fields the one writer stored, the two-word date included |
| FileText.ReadByOngoing | server/aux_functions.c:487-490 | the reader that decides expiry gets time active and start time |
| FileText.ReadByBid | server/aux_functions.c:560-562 | the reader of a bid gets start value and start time |
| FileText.ReadByClose | server/aux_functions.c:618-620 | the reader of a close gets the start time |
| FileText.ReadByInfo | server/aux_functions.c:651-655 | the reader of a record gets all eight fields |
| FileText.BidRoundTrip | server/aux_functions.c:589-593 | a bid file gives back bidder, value, date, time and seconds |
| FileText.EndRoundTrip | server/aux_functions.c:629-632 | an END file gives back date, time and seconds |
| FileText.PassRoundTrip | server/aux_functions.c:76-95 | pass.txt gives back the password |
| Text.AtoiPad | server/aux_functions.c:457-461 | atoi inverts zero-padded printing, whatever suffix follows |
| Text.Pad3Order | server/aux_functions.c:344 | names padded to three digits sort exactly as their numbers |
| Paths.NameInjective | server/aux_functions.c:259-295 | two different files never get the same path string |
| Paths.AtoiOfNames | server/aux_functions.c:546-547 | atoi of any entry name, with or without .txt, gives its number back |
| FileView.PathLookup | server/aux_functions.c:42-44 | a path string is present exactly when the file it is built for is |
| FileView.PathWrite | server/aux_functions.c:583-593 | writing at a path string changes that one file |
| FileView.ListingNumbers | server/aux_functions.c:543-552 | a listing of a scanned directory, in any order, names exactly the numbers on record |
| FileView.SortedListing | server/aux_functions.c:158-185 | a listing sorted by name gives the identifiers in increasing order |
| Wire.ListReplyLength | server/aux_functions.c:342-368 | a list of n identifiers takes exactly 7 + 6n bytes |
| FileServer.AuctionServer.constructor | server/server.c:31-32 | two empty directories stand for the empty state |
| FileServer.AuctionServer.ReadDir | server/aux_functions.c:330-336 | every entry once, dots included, in any order |
| FileServer.AuctionServer.ScanDir | server/aux_functions.c:161 | every entry once, dots included, sorted by name |
| FileServer.AuctionServer.VerifyUserExists | server/aux_functions.c:32-46 | true exactly for a registered user |
| FileServer.AuctionServer.IsUserLogin | server/aux_functions.c:50-59 | true exactly for a logged-in user |
| FileServer.AuctionServer.VerifyPasswordCorrect | server/aux_functions.c:76-95 | true exactly for the stored password |
| FileServer.AuctionServer.CreateUserFiles | server/aux_functions.c:3-24 | the files stand for the user being registered and logged in, earlier entries kept |
| FileServer.AuctionServer.ChangeUserLogin | server/aux_functions.c:62-73 | the files stand for the login flag flipped |
| FileServer.AuctionServer.DeleteUserFiles | server/aux_functions.c:98-108 | the files stand for the user without password and login, entries kept |
| FileServer.AuctionServer.IsDirectoryEmpty | server/aux_functions.c:323-339 | true exactly when the index holds nothing |
| FileServer.AuctionServer.ExistsAuctions | server/aux_functions.c:304-320 | true exactly when there is an auction other than the entry read first; so true only when there is one, and false only when there is at most one |
| FileServer.AuctionServer.GetNextAuctionId | server/aux_functions.c:450-465 | one more than the largest identifier, in any directory order |
| FileServer.AuctionServer.HostedBySelf | server/aux_functions.c:516-532 | true exactly when the user hosts the auction |
| FileServer.AuctionServer.ExistsAuction | server/aux_functions.c:371-380 | true for the padded identifier of an auction and for the empty text |
| FileServer.AuctionServer.OngoingAuction | server/aux_functions.c:468-512 | whether the auction runs; the files stand for the state in which an overdue end has been noticed |
| FileServer.AuctionServer.MaxBid | server/aux_functions.c:543-553 | the largest bid on file, in any directory order |
| FileServer.AuctionServer.BidAccepted | server/aux_functions.c:535-572 | accepted exactly when above the start value and every bid on file; then the files stand for the bid placed |
| FileServer.AuctionServer.CreateBidFiles | server/aux_functions.c:577-603 | the files stand for the bid placed and the bidder's entry made |
| FileServer.AuctionServer.CloseAuctionFiles | server/aux_functions.c:607-634 | the files stand for the auction ended at the stamp |
| FileServer.AuctionServer.CreateAuctionFiles | server/aux_functions.c:254-301 | the files stand for the new auction under the next identifier, whatever the upload; 0 is returned exactly when the upload failed; with a byte to spare exactly size + 1 bytes are consumed |
| FileServer.AuctionServer.AppendAuctions | server/aux_functions.c:342-368 | every auction once, in increasing order, with its flag |
| FileServer.AuctionServer.FetchAuctions | server/aux_functions.c:158-185 | the identifiers of an index in increasing order, each followed by a space |
| FileServer.AuctionServer.UserStatus | server/aux_functions.c:110-156 | the identifiers of an index, split again at the spaces, each with its flag |
| FileServer.AuctionServer.GetAucInfo | server/aux_functions.c:637-700 | the record of the auction with every bid once, and the files stand for the state in which its end has been noticed |
| FileServer.AuctionServer.GetAucFileInfo | server/aux_functions.c:383-407 | name and size of the asset, or nothing |
| FileServer.AuctionServer.SendAucFile | server/aux_functions.c:417-447 | the bytes of the asset and a newline, or nothing |
| FileServer.AuctionServer.HandleLogin | server/udp_functions.c:3-36 | a text without credentials gets RLI ERR and changes nothing; otherwise files and reply are those of a login in the state model (REG, NOK or OK), and the invariant is kept |
| FileServer.AuctionServer.HandleLogout | server/udp_functions.c:39-66 | a text without credentials gets RLO ERR and changes nothing; otherwise files and reply are those of a logout in the state model (UNR, NOK or OK), and the invariant is kept |
| FileServer.AuctionServer.HandleUnregister | server/udp_functions.c:69-96 | a text without credentials gets RUR ERR and changes nothing; otherwise files and reply are those of an unregister in the state model (NOK or OK), and the invariant is kept |
| FileServer.AuctionServer.HandleMyAuctions | server/udp_functions.c:100-123 | a malformed text gets RMA ERR and changes nothing; otherwise NLG, NOK or the auctions of hosted/ in increasing order with their flags, overdue ends among them noticed in the files |
| FileServer.AuctionServer.HandleMyBids | server/udp_functions.c:126-149 | a malformed text gets RMB ERR and changes nothing; otherwise NLG, NOK or the auctions of bidded/ in increasing order with their flags, overdue ends among them noticed in the files |
| FileServer.AuctionServer.HandleList | server/udp_functions.c:152-172 | RLS ERR unless a newline follows the command; otherwise NOK or all auctions in increasing order with their flags, depending on the entry the directory gives first |
| FileServer.AuctionServer.HandleShowRecord | server/udp_functions.c:174-197 | a malformed identifier gets RRC ERR; otherwise NOK or the record with every bid once, in the order the directory gives them, and an overdue end noticed in the files |
| FileServer.AuctionServer.HandleOpen | server/tcp_functions.c:3-50 | a header outside its grammar gets ROA ERR and changes nothing; otherwise files and reply are those of an open in the state model, for the upload found on the stream; when the auction is created and enough bytes came, exactly the file and one byte more are consumed |
| FileServer.AuctionServer.HandleShowAsset | server/tcp_functions.c:53-85 | ERR without an ended line, NOK for a bad or unknown identifier, nothing for an empty one, otherwise the stored name, size and bytes on the wire; nothing changes |
| FileServer.AuctionServer.HandleBid | server/tcp_functions.c:88-134 | a request outside its grammar gets RBD ERR and changes nothing; otherwise files and reply are those of a bid in the state model (NLG, NOK, ILG, REF or ACC), and the invariant is kept |
| FileServer.AuctionServer.HandleClose | server/tcp_functions.c:137-183 | a request outside its grammar gets RCL ERR and changes nothing; otherwise files and reply are those of a close in the state model (NLG, NOK, EAU, EOW, END or OK), and the invariant is kept |
| FileServer.AuctionServer.ProcessUdpRequest | server/server.c:192-226 | any datagram is answered as its grammar and the state model say |
| FileServer.AuctionServer.ProcessTcpRequest | server/server.c:228-246 | any stream is answered as its grammar and the state model say |
| Streams.WriteTcp | server/aux_functions.c:409-414 | everything is written in order, however little each write takes |
| Streams.ReadField | server/aux_functions.c:189-218 | the field up to the first space or newline, the return code that tells which, and exactly the bytes up to there consumed |
| Streams.StoreFile | server/aux_functions.c:221-252 | under any chunking exactly the announced bytes are stored, one more is consumed, and success means it was a newline |
| Streams.ReadFieldClient | client/aux_functions.c:117-146 | the field up to the first space, exactly the bytes up to there consumed |
| Streams.ReadAssetReply | client/functions.c:280-302 | from the server's reply the client gets name, size and bytes, leaving one newline |
| Client.VerifyBuffer | client/aux_functions.c:248-268 | accepts exactly texts that end in a newline, do not start with a space and hold no two adjacent spaces |
| Client.ReadBufferToken | client/aux_functions.c:227-239 | the token, and -1 exactly when the line ended inside the room for it |
| Client.ReadList | client/functions.c:106-115 | the loop ends on every list the server prints, having printed exactly its numbers and flags in order |
| Client.ShowRecord | client/functions.c:357-440 | the switch loop ends on every record, having printed what reading it word by word gives |
| RoundTrips.RecordRoundTrip | client/functions.c:338-443 | whatever the order of the bids, the reply passes the format test and the client shows every field, every bid in that order and the end, with nothing left over |
| RoundTrips.RecordInterprets | server/aux_functions.c:637-700 | word by word, a record is read as it was meant |
| RoundTrips.ReachableIsShowable | server/tcp_functions.c:186-210 | every auction of every reachable state meets what the record round trip asks for |
| RoundTrips.ListRoundTrip | client/functions.c:94-120 | for every nonempty set of identifiers up to 999 the list reply passes the format test and the client prints each identifier once, in increasing order, in three digits and with the digit 1 exactly for an open auction, the digit 0 for an ended one |
| Requests.ReadCommandUdp | server/input_funcs.c:5-29 | 1, 2 or 0 by what follows three characters, and the command |
| Requests.ReadUidUdp | server/input_funcs.c:32-85 | accepts exactly six digits in place followed by the separator |
| Requests.ReadPasswordUdp | server/input_funcs.c:88-114 | accepts exactly eight letters or digits in place and a newline |
| Requests.ReadAidUdp | server/input_funcs.c:117-145 | accepts one to three digits and a newline, and gives the number padded to three digits |
| Requests.AidGrammar | server/input_funcs.c:117-145 | accepts exactly one to three digits and a final newline, except exactly for texts with more after a first newline |
| Requests.AidIgnoresTail | server/input_funcs.c:117-145 | such a text that is accepted |
| Requests.UdpTails | server/input_funcs.c:5-114 | an accepted datagram other than SRC is the one the client sends for that request exactly when it is no longer than that |
| Requests.TailsAreIgnored | server/input_funcs.c:5-114 | appending anything to such a datagram changes nothing |
| Requests.VerifyUid | server/input_funcs.c:148-158 | exactly six digits |
| Requests.VerifyPassword | server/input_funcs.c:161-171 | exactly eight letters or digits |
| Requests.VerifyAid | server/input_funcs.c:174-185 | for a field of up to three characters, exactly digits |
| Requests.VerifyName | server/input_funcs.c:188-198 | one to ten letters, digits, underscores or dashes |
| Requests.VerifyNumber | server/input_funcs.c:201-224 | one up to the given number of digits |
| Requests.VerifyFname | server/input_funcs.c:227-237 | one to 24 letters, digits, dots, underscores or dashes |
| Requests.VerifySize | server/input_funcs.c:240-254 | one to eight digits, at most ten million |
| Requests.FormatLengths | server/server.h:29-37 | how long each field may be |
| Requests.SizeLimit | server/server.h:35-36 | a printed size is accepted exactly up to ten million |
| Requests.FormatCharacters | server/input_funcs.c:148-254 | which characters each field may hold |
| Requests.VerifyOpenArgs | server/tcp_functions.c:186-210 | all seven fields in their formats |
| Requests.ReadOpenHeader | server/tcp_functions.c:8-28 | under any chunking, the fields of the header grammar, exactly its bytes consumed |
| Requests.ReadBidRequest | server/tcp_functions.c:94-111 | the request the grammar gives, or the error line |
| Requests.ReadCloseRequest | server/tcp_functions.c:143-158 | the request the grammar gives, or the error line |
| Requests.ReadAssetRequest | server/tcp_functions.c:57-66 | the request the grammar gives, or the error line |
| Requests.ReadCommand | server/server.c:229-231 | the command text, as left in the array even when reading failed |
| Requests.ParseUdpIsValid | server/input_funcs.c:5-145 | only requests in their formats get past the parsers |
| Requests.TcpRequestsAreValid | server/tcp_functions.c:186-240 | what passes the checks of OPA, BID, CLS and SAS is a request in its format |
| Requests.CredentialRoundTrip | client/functions.c:24 | LIN, LOU and UNR as printed come back as the same request |
| Requests.RecordRequestRoundTrip | client/functions.c:338-346 | SRC as printed comes back with the same number |
| Requests.ListRequestsRoundTrip | client/functions.c:208-240 | LMA, LMB and LST as printed come back as the same request |
| Requests.OpenHeaderRoundTrip | client/functions.c:155-156 | the OPA header as printed comes back field by field, and reading stops exactly before the file |
| Requests.BidRequestRoundTrip | client/functions.c:314 | BID as printed comes back with the same fields |
| Requests.CloseRequestRoundTrip | client/functions.c:186 | CLS as printed comes back with the same fields |
| EndToEnd.TcpRoundTrip | client/functions.c:186-314 | BID, CLS and SAS with their commands reach the handlers as the same requests |
| EndToEnd.OpenStreamRoundTrip | client/functions.c:155-156 | an OPA request followed by the file and a newline is the open the client meant with exactly those bytes, and what follows stays unread |
| EndToEnd.AssetEndToEnd | client/functions.c:280-302 | at any point after an open answered with an identifier, asking for its asset gives the client the original name, size and bytes under any chunking |
| EndToEnd.AssetThroughServer | server/tcp_functions.c:3-85 | over the main loop on any messages: if the client's OPA with a file was answered with an identifier, a later SAS for it gives the client the file name, the size and exactly the bytes sent |
| EndToEnd.RecordThroughServer | client/functions.c:338-443 | the client's SRC sent to the main loop at any point passes the format test and shows the record the ideal server has then, every bid once; or the ideal server answers NOK |
| EndToEnd.ListThroughServer | client/functions.c:94-260 | the client's LST, LMA or LMB sent to the main loop at any point passes the format test and shows exactly the auctions asked for (all, those hosted, those bid on) in increasing order, with the digit 1 exactly when the auction has not been closed and the clock is before start + time active, 0 otherwise; or the ideal server answers NOK or NLG |
| Client.CloseReported | client/functions.c:194-205 | the message for a reply to CLS is the right one exactly when the reply is neither EAU nor NOK, which both read as a server error |
| EndToEnd.CloseOutcomeReported | client/functions.c:194-205 | the same for the reply the server gives to any close in any state |
| Grammars.OpenGrammar | server/tcp_functions.c:8-28 | OPA is accepted with given arguments, reading stopping at a given point, exactly for headers of the stated form |
| Grammars.BidGrammar | server/tcp_functions.c:94-111 | BID is accepted as a given request exactly for streams of the stated form |
| Grammars.CloseGrammar | server/tcp_functions.c:143-158 | CLS is accepted as a given request exactly for streams of the stated form |
| Grammars.TakeFieldIs | server/aux_functions.c:189-218 | a field is read exactly from streams that start with it and a space |
| Grammars.TakeLineIs | server/aux_functions.c:189-218 | a line is read exactly from streams that start with it and a newline |

## Left out

- Sockets, `select`, address lookup, timeouts, signals, argument parsing and verbose printing are not modelled; a socket is the bytes that arrive, delivered in arbitrary nonempty chunks.
- `fork` and `flock` are modelled as processes that step and locks with an optional owner; acquiring a lock never fails.
- `localtime` and `strftime` are one arbitrary function from seconds to a 10-character date and an 8-character time.
- Failures of the operating system (full disk, permissions, vanished START files) do not happen, except that opening "." or ".." for writing fails; file sizes from `stat` are exact and `sendfile` sends the whole file.
- C buffer overflows, uninitialised reads and integer overflow are not modelled; arrays are as long as the fields they are given.
- FileServer.AuctionServer.FetchAuctions: identifiers are at most 999 as in the three-digit protocol, because beyond that the name cut to three characters denotes another auction.
- FileServer.AuctionServer.HandleList: at most 999 auctions, for the same reason; one request reads the clock once for all auctions it lists.
- Serving.Serve: serves connections one after another and stops at the first datagram that finds more than 999 auctions, since identifiers of more digits are outside the protocol; overlapping connections are the subject of Interleaving, Schedules and Overlaps. A datagram counts up to its first NUL.
- FileServer.AuctionServer.HandleShowAsset: on an SAS request with an empty identifier the code reads through a null directory handle, which C leaves undefined; the model has the child end there, before it has sent anything.
- Streams.StoreFile: when the stream ends right after the last byte the result is left open, because the code then compares a leftover byte with the newline.
- Streams.ReadAssetReply: starts from a reply as the server prints it; the client's branches for NOK and ERR only print.
- Client.ReadList: is stated for replies the server prints, because on arbitrary text a token that is too long can step over the end of the line.
- Interleaving.EveryInterleavingIsSerial: outcomes are those recorded by the child's own check steps, which Schedules.ChildDoesItsHandler ties to the handlers when nobody interrupts; the three directories of an auction are made in one step, and a password file removed between two checks counts as a wrong password.
- Text files are replaced whole: a half-written file is never seen by the parent.
- Outcomes.OpenStreamExactly: when exactly the announced bytes arrive and nothing behind them either outcome is allowed, for the reason given at Streams.StoreFile.
- The client's command loop, its abbreviations and its messages other than those after LIN, LOU, UNR, OPA, BID and CLS are user interface.
