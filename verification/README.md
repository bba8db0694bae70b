# Vair core: a model and its proofs

Vair is a VPN client. This project models the parts of `vair/core` that decide
things by themselves, without the operating system or the network: reading where
a relayed connection goes, keeping and showing the list of servers, choosing and
leaving servers, and accounting for what was carried. Every algorithm the program
runs as a loop, or as an object that changes in place, is a method or a class
here, proved against a function; what the program promises is proved about those
functions, for all inputs, runs and interleavings.

| files | what they are |
|---|---|
| `Bytes`, `Decimal`, `Sorting` | bytes at a place in a buffer; numbers and lists as text; stable sorting |
| `RelaySpy`, `DestSpy`, `SpyAnswers`, `UrlCuts` | the reader of a connection's first bytes: SOCKS5, TLS and HTTP, fed in arbitrary chunks, and what it reports of each kind of connection |
| `Dns`, `DnsRules` | the DNS question and the answer reader used while the tunnel is down, and the messages of RFC 1035 |
| `TabRows`, `EditRules`, `TabList`, `RowResolve`, `RowRules` | editing a tab's list: as values, on the shared entries themselves, and finding rows a stale screen names |
| `OrderSave` | who writes a tab's order to disk, and when |
| `Names`, `ExcludeFilter`, `FilterRules`, `Dedup`, `DedupAnswers`, `DedupRules`, `RuleTells`, `DedupTab` | distinct names; a tab's exclude rules; the two ways of dropping duplicates, the lists they agree on, and the tab they are dropped from |
| `TableView`, `TableWindow`, `WindowRules`, `QuerySig`, `TableCache` | sort modes, the rows shown, the signature of a query, and the cache of its order |
| `WeightedMean`, `NodeStats`, `StatRules`, `WindowText` | a server's measurement history, and its text form |
| `Ranking`, `RankRules`, `Sweep`, `SweepRules` | which servers may be tried, in what order, and the pauses failures earn |
| `Liveness`, `Supervisor`, `PassRules`, `SupervisorLoop`, `DeadServers`, `Returns` | byte-counter hints, one pass of the AUTO loop as a step and as a table, the loop object, how long a dead server is kept, and when one that was left is tried again |
| `ConnBook`, `ConnRuns`, `ConnRules`, `ConnLedger` | the list of connections and its totals, whole runs of it, and the ledger its figures are those of |
| `QrTiles` | the tiles a large picture is cut into |

`PassRules`, `ConnRules`, `SweepRules`, `RankRules`, `EditRules`, `RowRules`,
`WindowRules`, `FilterRules`, `StatRules`, `DnsRules`, `SpyAnswers` and
`DedupAnswers` say what an operation does once more, and differently: from the
settings, bytes, rows and entries themselves, with the program's numbers written
out; each proves that the two agree on all inputs.

What the proofs found beside the promises:

- The calls of the destination reader do not depend on how the stream was cut
  exactly when the stream meets neither of its two length cut-offs;
  `DestSpies.ChunksDoNotMatterIff` has the condition, `LateLineLost` and
  `LateHeadLost` a cutting that loses a call for every stream outside it. A
  request by absolute URL is the one kind whose payload starts where a cut falls;
  `UrlCuts.CutsDoNotMatterIff` has the condition for it too, and so for every
  stream.
- "Hide duplicates" and "delete duplicates" part for Shadowsocks links whose 2022
  cipher is written in capitals: one place looks at the fields as written, the
  other at the lowered ones. `ExcludeFilter.PlacesAgreeIff` says for which
  entries they agree under all rules, `DedupRules.DeleteShowsWhatHideShows` for
  which lists, and `Dedup.CapitalsDivideThem` shows a pair they treat
  differently.
- A chain is never replaced on the evidence of probes, but "Switch now", or a
  change of the pool while AUTO owns the connection, does put a single server in
  its place; `Supervisor.ChainReplacedIff` is exact.
- The cache's signature joins its parts without escaping, so an empty type filter
  and none share one (`QuerySig.NoTypeJoins`); it is exact on texts without
  separators (`QuerySig.SignatureIff`).
- What a connection carried before "clear" comes back at its end when it was not
  in the list at the clear: pushed out by newer ones, or dropped because
  recording was off (`ConnRuns.ClearForgetsIff`; `ConnRuns.ClearedComesBack` is
  such a life from the start).
- The QR tiles hold every square of 401 pixels, one more than their overlap, and
  no more: for every larger side there is an image and a square in it that every
  tile cuts (`QrTiles.LargerSquaresMayBeCut`).
- The four seconds between two moves of a tunnel are declared for every path, and
  kept by "Switch now" alone: a dead server, a changed pool or a faster server may
  move it sooner. `Supervisor.FloorIsBroken` has a run from the start for each of
  the three, `Supervisor.FloorBrokenIff` says exactly when a pass does it, and
  `Supervisor.DwellKeepsTheFloor` that a minimum stay of four seconds or more
  keeps the floor for the last two.
- The failure count survives a reconnection from rest
  (`Supervisor.JoiningKeepsTheCount`).

## Model

| member | source | states |
|---|---|---|
| RelaySpy.SocksRoundTrip | vair/core/relayspy.go:147-206 | reading undoes writing: any methods list, optional RFC 1929 login, CONNECT to an IPv4, IPv6 or domain target, and any bytes behind, give back exactly that destination and the handshake's length |
| RelaySpy.SocksFindsOnlyHandshakes | vair/core/relayspy.go:147-206 | the converse: whatever is found, the bytes used are the encoding of a well-formed handshake with that destination |
| RelaySpy.SocksStable | vair/core/relayspy.go:147-206 | a verdict, found or never, is not changed by more bytes |
| RelaySpy.SocksBack | vair/core/relayspy.go:147-206 | a request found in a long buffer is found in its own bytes alone |
| RelaySpy.SocksDecides | vair/core/relayspy.go:147-206 | 1032 bytes always suffice for a verdict |
| RelaySpy.SocksBoundIsTight | vair/core/relayspy.go:147-206 | and 1031 do not: there is a handshake of 1032 bytes |
| RelaySpy.SocksNeedsAll | vair/core/relayspy.go:147-206 | no proper part of a handshake is taken for a verdict |
| RelaySpy.Socks5Request | vair/core/relayspy.go:147-206 | the reader as written, one cursor over the buffer, in bounds on all inputs, computes the function those lemmas are about |
| RelaySpy.TlsRoundTrip | vair/core/relayspy.go:240-293 | a single-record ClientHello (RFC 8446 sections 4.1.2 and 5.1) whose first server_name extension holds an RFC 6066 section 3 list starting with the host name n, wherever it stands among the extensions and whatever entries and bytes follow, gives back n, or a refusal when n is no host name; one without the extension is refused |
| RelaySpy.TlsFindsOnlyNames | vair/core/relayspy.go:240-293 | the converse, on any bytes: a name is found only in a whole record that holds a ClientHello, behind its fixed fields, where a server_name extension names it first, and only one that can be a host name |
| RelaySpy.TlsStable | vair/core/relayspy.go:240-293 | a TLS verdict is not changed by more bytes |
| RelaySpy.SkipFields | vair/core/relayspy.go:252-269 | the cursor passes the length-prefixed fields of the hello in bounds |
| RelaySpy.WalkExtensions | vair/core/relayspy.go:268-293 | the walk over the extensions, in bounds, finds what the definition of the asked name says |
| RelaySpy.TlsServerName | vair/core/relayspy.go:240-293 | the reader as written, on all inputs |
| RelaySpy.CheckHostName | vair/core/relayspy.go:296-306 | a name is accepted exactly when it is 1 to 253 bytes of host characters and no address |
| RelaySpy.ReadPayloadName | vair/core/relayspy.go:210-236 | the first payload: a TLS name, or the first Host line of an HTTP head, or more needed within the cut-off |
| RelaySpy.HostRoundTrip | vair/core/relayspy.go:210-236 | an HTTP head, whatever follows it, gives the host of its first Host line, without its port, or a refusal when that is no host name |
| RelaySpy.HostlessHead | vair/core/relayspy.go:218-236 | a head without a Host line names nothing and is not waited for |
| RelaySpy.ReadProxyRequest | vair/core/relayspy.go:97-143 | the first request: SOCKS5, HTTP CONNECT or an absolute URL, with the 2048-byte cut-off |
| RelaySpy.ConnectRoundTrip | vair/core/relayspy.go:97-143 | a CONNECT head, whatever follows it, gives its authority and the length of the head |
| RelaySpy.UrlRoundTrip | vair/core/relayspy.go:126-143 | a request by absolute URL, whatever follows its line, gives the URL's authority, with port 80 when it names none, and takes all the bytes there are |
| DestSpies.DestSpy.Feed | vair/core/relayspy.go:51-87 | the incremental object does exactly one step of the specification, callbacks included |
| DestSpies.FedIsSound | vair/core/relayspy.go:51-87 | between feeds the buffer stays below 8192 bytes and the payload starts inside it, unless the spy is done |
| DestSpies.RunIsOneFeed | vair/core/relayspy.go:51-87 | any cutting of a stream in which no absolute URL carries a payload ends where one feed of some prefix of the stream would, and of all of it unless the spy was done |
| DestSpies.CutsNeverInvent | vair/core/relayspy.go:51-87 | no cutting of such a stream makes a call that one feed of the whole does not make first |
| DestSpies.CallsGrow | vair/core/relayspy.go:51-87 | more bytes of such a stream only add calls |
| DestSpies.DoneIsFinal | vair/core/relayspy.go:51-87 | a spy that is done has said what the whole of such a steady stream would make it say |
| DestSpies.ChunksDoNotMatterIff | vair/core/relayspy.go:97-236 | where no absolute URL carries a payload, the calls are the same for all cuttings, empty chunks included, if and only if a first line that can be read ends before byte 2048 and a head whose Host can be read ends before byte 4094 of the payload |
| DestSpies.LateLineLost | vair/core/relayspy.go:104-110 | a first line that ends past the cut-off: a cutting that loses every call |
| DestSpies.LateHeadLost | vair/core/relayspy.go:210-236 | a head that ends past the cut-off: a cutting that loses the name |
| SpyAnswers.SocksTlsIsSteady | vair/core/relayspy.go:51-87 | every SOCKS5 stream with a TLS payload is one of those that cuts do not matter for |
| SpyAnswers.SocksTlsNamed | vair/core/relayspy.go:51-306 | end to end: however a SOCKS5 connection to an address, or to a name that is an address spelled out, and the ClientHello behind it are cut, within 8192 bytes, the calls are that destination and then the name n it asks for, if that is 1 to 253 letters, digits, dots, hyphens and underscores and no address |
| SpyAnswers.SocksNameAlone | vair/core/relayspy.go:60-75 | a SOCKS5 connection to a name that is no address, or to anything when nobody wants a name: every cutting of it and of whatever is behind it gives that one destination and nothing else |
| SpyAnswers.ConnectNameAlone | vair/core/relayspy.go:60-125 | the same of a CONNECT whose authority names no address, its first line ending before byte 2048 and its head within the 8192 bytes kept |
| SpyAnswers.UrlNameAlone | vair/core/relayspy.go:60-143 | the same of a request by absolute URL to a name |
| SpyAnswers.RefusedSaysNothing | vair/core/relayspy.go:104-143 | of a request whose first line has less than two words, or is a CONNECT to what is no host and port, or has a URL without an authority, nothing is reported, however it and what follows it are cut |
| SpyAnswers.ConnectTlsNamed | vair/core/relayspy.go:51-306 | behind a CONNECT to an address a ClientHello is read on: the authority, then the name asked for |
| SpyAnswers.SocksHostNamed | vair/core/relayspy.go:51-236 | behind a SOCKS5 connection to an address an HTTP head that ends before byte 4094 is read on: the destination, then the value of its first Host line without spaces around it and without a port, if that can be a host name |
| SpyAnswers.GivesUpInTime | vair/core/relayspy.go:36-75 | whatever the stream and its cutting, less than 8192 bytes are ever held, and with 8192 fed the spy is done |
| DestSpies.UrlPayloadDependsOnCut | vair/core/relayspy.go:126-143 | behind a request by absolute URL to an address, a ClientHello asking for n is named n or not by where the cut falls |
| UrlCuts.CutsDoNotMatterIff | vair/core/relayspy.go:51-143 | for every stream, those carried by an absolute URL included: the calls are the same for all cuttings if and only if the condition for its kind holds; for an absolute URL, that its line ends before byte 2048 and no end part of what is kept behind it reads as a payload with a name |
| Dns.SkipNameAt | vair/core/bootstrapdoh.go:145-160 | the name skipper ends on any bytes, inside the message or with a refusal |
| Dns.NameSkipped | vair/core/bootstrapdoh.go:145-160 | any RFC 1035 name, plain, compressed, or both, is skipped to its end |
| Dns.CollectAll | vair/core/bootstrapdoh.go:170-192 | the answer loop, in bounds on all inputs |
| Dns.DnsAnswersA | vair/core/bootstrapdoh.go:134-192 | the reader ends without an out-of-range read on any bytes and computes the specified answer |
| Dns.ReadsWellFormed | vair/core/bootstrapdoh.go:134-192 | on every well-formed response the code decides first, then exactly the four-byte A records are returned, in order |
| Dns.WriteLabels | vair/core/bootstrapdoh.go:107-118 | labels are written behind their lengths, or refused at the first that cannot be one |
| Dns.DnsQueryA | vair/core/bootstrapdoh.go:107-118 | the question written is a well-formed one for the host, or a refusal exactly when the host is no name |
| Dns.LabelsAreTheHost | vair/core/bootstrapdoh.go:107-118 | the labels written, joined by dots, are the host |
| Dns.AnswersToTheQuestion | vair/core/bootstrapdoh.go:107-192 | query and reader together: a response built around the written question yields its A records |
| DnsRules.QuestionAsks | vair/core/bootstrapdoh.go:105-118 | a question is written exactly for what spells a name, with or without a dot at its end; read back as RFC 1035 sections 3.1 and 4.1 have it, it has ID 0, recursion desired and no other flag, one question and no record, the labels of that name, type A and class IN |
| DnsRules.CutIsTruncated | vair/core/bootstrapdoh.go:134-192 | a response with answers that ends anywhere before the end of the last of them is an error, neither fewer addresses nor none |
| TabRows.RunsKeepSound | vair/core/memstore.go:742-755 | every run of paste, delete, move, delete-duplicates, undo and reload keeps the indices strictly increasing by position |
| TabRows.MemEntryFindsTheOne | vair/core/memstore.go:742-755 | an index then names one entry, and the lookup finds it |
| TabRows.ReorderPermutes | vair/core/entry_move.go:37-147 | a move has exactly the old rows |
| TabRows.MoveKeepsBothOrders | vair/core/entry_move.go:37-147 | the moved rows keep their order and stand together, the others keep theirs |
| TabRows.MoveLandsAtTarget | vair/core/entry_move.go:37-147 | the block stands right before the target, or right behind it |
| TabRows.MoveLandsAtTheEnds | vair/core/entry_move.go:37-147 | dropped at the start the block is first, dropped at the end it is last |
| TabRows.MoveReturnsTheBlock | vair/core/entry_move.go:37-147 | the indices returned are those of the moved entries and of no others |
| TabRows.ConnectionFollows | vair/core/entry_move.go:37-147 | the connection's row index stays on the same entry |
| EditRules.MoveGoesByRules | vair/core/entry_move.go:37-112 | over all rows and selections: a move is refused exactly when nothing is chosen, or the target is chosen or names no row that stays, or the entries would stand as they did; else the chosen rows go in among the others, at the start for -2, at the end for any other negative target, else before the first row with the target index or behind it, everything is numbered from 0, and the answer is where the block stands |
| EditRules.FollowGoesByRules | vair/core/entry_move.go:113-139 | over all rows: a refused move leaves the index of the connection's row, and another takes it to the place in the new order of the last row that had it and is numbered anew, if there is one |
| TabRows.DeleteThenUndo | vair/core/entry_undo.go:112-190 | delete, then undo, restores list and indices exactly |
| TabRows.DropDuplicatesThenUndo | vair/core/fetch.go:1046-1085 | the same for delete-duplicates |
| TabRows.UndoAfterRun | vair/core/entry_undo.go:151-190 | after any run of edits, undo gives back the rows from before the last delete that is remembered if list and numbering are as that delete left them, and else changes no row |
| EditRules.EditGoesByRules | vair/core/entry_api.go:84-159 | what a reload, a paste, a delete and the removal of duplicates leave of any rows: a paste behind the others from one past the highest index, the survivors of a delete with their indices, the kept copies numbered from 0 when any went |
| TabList.Tab.PasteChunk | vair/core/api.go:339-356 | new entries go behind the others, numbered past the highest index |
| TabList.Tab.DeleteEntries | vair/core/entry_api.go:99-159 | the named entries go, the others keep their indices, and the delete is remembered |
| TabList.Tab.DropDuplicates | vair/core/fetch.go:1046-1085 | the kept entries are renumbered from zero and the step is remembered; which are kept is `DedupTab.DropIsDedup`'s matter |
| DedupTab.DropIsDedup | vair/core/fetch.go:1046-1085 | the entries left are those dedupByBody keeps, in order, numbered from zero, with the step remembered; when it keeps all nothing changes |
| TabList.Tab.ForgetDelete | vair/core/entry_undo.go:121-127 | a forgotten delete is no longer there to undo |
| TabList.Tab.UndoDelete | vair/core/entry_undo.go:151-190 | in place: old list and old indices, or no change |
| TabList.Tab.MoveEntries | vair/core/entry_move.go:37-147 | in place on the shared entries, whatever their numbering was: the order, every index, the answer and the connection's row are those of the row-level move |
| TabList.Tab.Replace | vair/core/configstore.go:430-438 | a fetched list, numbered from the top as its loader does, replaces the old one |
| TabList.Tab.MemEntry | vair/core/memstore.go:742-755 | the lookup by index as written |
| TabList.NextEntryIndex | vair/core/entry_api.go:84-92 | one past the highest index in use |
| TabList.StillAs | vair/core/entry_undo.go:151-168 | whether the tab is exactly what the delete left, entries and numbering |
| RowResolve.ResolveRows | vair/core/entry_undo.go:21-61 | the two maps and the loop compute the specified rows, of any tab |
| RowResolve.ResolvedDistinct | vair/core/entry_undo.go:21-61 | the rows resolved are pairwise distinct and in the tab |
| RowResolve.ResolvedHolds | vair/core/entry_undo.go:21-61 | each holds the configuration asked for, or has the index given when none was named |
| RowResolve.EachAsOftenAsAsked | vair/core/entry_undo.go:21-61 | when every request names its configuration, the number resolved is the lesser of times asked and indices it is found at, whatever the indices were; where an index names one row those are its copies |
| RowResolve.FoundHolds | vair/core/entry_undo.go:21-61 | a request finds nothing only when no unused row holds its configuration |
| RowRules.RequestGoesByRules | vair/core/entry_undo.go:33-59 | each request, after those before it: the index given wins while it is in use, not taken and holds what was asked for; else the first row in the list whose index does; else none |
| RowResolve.IndicesOf | vair/core/entry_undo.go:74-89 | the n-th request for a configuration gets its n-th copy, and -1 past the last |
| RowRules.SelectionFollows | vair/core/entry_undo.go:74-89 | a selection finds the row that has as many rows with its link before it as there are requests for it before this one, and -1 when there are no more |
| OrderSave.Flags.Ask | vair/core/entry_move.go:170-182 | a request starts a writer exactly when none runs, and else asks the running one to go again |
| OrderSave.Flags.Next | vair/core/entry_move.go:182-209 | a writer goes again exactly when asked meanwhile, and else is no longer running |
| OrderSave.AtMostOneWriter | vair/core/entry_move.go:159-209 | in every interleaving at most one writer runs per tab |
| OrderSave.NoOrderIsLost | vair/core/entry_move.go:159-209 | whenever none runs and the last write succeeded, the order on disk was read after the last request was made |
| OrderSave.RequestsAreTaken | vair/core/entry_move.go:170-182 | in every reachable state a request starts a writer if none runs, and else has the running one go round again |
| OrderSave.WritersSettle | vair/core/entry_move.go:182-209 | from every reachable state, once nobody asks any more, the writer can always go on, makes at most six more steps, two rounds, and is gone, however often the order changes |
| Names.FindFree | vair/core/fetch.go:1098-1124 | the search ends, by pigeonhole over the candidates, at the least free number |
| Names.RenamedDistinct | vair/core/fetch.go:1098-1124 | all names are pairwise distinct afterwards |
| Names.RenamedOnlyIfTaken | vair/core/fetch.go:1098-1124 | an entry is renamed if and only if an earlier one already carries its name |
| Names.RenamedToLeastFree | vair/core/fetch.go:1098-1124 | and then to its own name, " - " and the least number from 1 that gives a name no earlier entry carries |
| Names.SecondRunChangesNothing | vair/core/fetch.go:1087-1124 | a second run changes nothing |
| Names.DisambiguateNames | vair/core/fetch.go:1098-1124 | the walk over entries and holes, renaming and rewriting links in place, gives those names |
| ExcludeFilter.ShouldSkip | vair/core/excludefilter.go:59-98 | an entry is skipped exactly when some rule hides it |
| FilterRules.RuleHidesIff | vair/core/excludefilter.go:28-98 | a rule hides an entry exactly when it reads as a column, named before its first colon in any case, or else the name, and a value, blanks around it aside and not empty, that the entry meets there: the whole type, transport or security, or a part of the host or name, letters compared in any case, "raw" shown as tcp and a 2022 cipher as ss2022 |
| FilterRules.LowerIsLow | vair/core/excludefilter.go:59-98 | the lowered fields are the fields with no capital left and nothing but the case of letters changed |
| ExcludeFilter.PlacesAgreeIff | vair/core/excludefilter.go:41-98 | the raw and the lowered test agree under all rules if and only if the entry is plainly spelled |
| ExcludeFilter.TypeRuleOnShadowsocks | vair/core/excludefilter.go:41-98 | what type:ss hides of a Shadowsocks entry |
| Dedup.DedupByBody | vair/core/fetch.go:895-931 | the two walks with their maps keep the specified entries, in order |
| Dedup.KeeperIsFirstShown | vair/core/fetch.go:895-931 | the copy kept of an identity is its first visible one, and the first of all when none is |
| Dedup.OneOfEachStays | vair/core/fetch.go:895-931 | an entry stays if and only if it is that copy |
| DedupAnswers.DedupGoesByRules | vair/core/fetch.go:895-931 | the entries left of any list without an entry twice, in order: of the linked copies of a server the first that no rule hides, or the first of all; a list of one stays as it is |
| Dedup.HideDuplicates | vair/core/memstore.go:393-449 | the view's own loop computes the view |
| DedupAnswers.ViewGoesByRules | vair/core/memstore.go:393-449 | the entries shown, in order: those that no rule hides by their lowered fields and no earlier such copy comes before |
| Dedup.CapitalsDivideThem | vair/core/fetch.go:895-931 | spelling divides them: of two twins under the rule type:ss deleting keeps the second and hiding the first |
| DedupRules.DeleteShowsWhatHideShows | vair/core/fetch.go:895-931 | whatever the exclude rules, deleting duplicates leaves the table showing what hiding them shows, in order, if and only if no identity of the list can be divided: no first copy in capitals before one in plain letters or one some rule tells from it, and no plain first copy before one in capitals that every plain copy ahead of it can be told from |
| DedupRules.PlainDuplicatesAgree | vair/core/fetch.go:895-931 | under any rules they agree on every list whose duplicates are plainly spelled; entries without a duplicate may be spelled anyhow |
| RuleTells.ToldIff | vair/core/excludefilter.go:59-98 | some exclude rule hides one 2022 entry and not the other if and only if their names, hosts, networks or ciphers differ in the way given |
| TableView.LessKeyIsBefore | vair/core/memstore.go:509-574 | every branch of the comparison is one rule: favourites, bands, the column's value, the list order |
| TableView.LessKeyOrders | vair/core/memstore.go:509-574 | it is a strict weak order in every mode and direction, and strict and total on entries with different indices |
| TableView.DescTurns | vair/core/memstore.go:499-574 | reversing turns exactly the pairs that differ in the column's value inside one band: never favourites, bands or ties |
| TableView.DescSuffix | vair/core/memstore.go:499-574 | each name of a column means that column and any other name the list order; the suffix ":desc", and no other, reverses it |
| TableView.TextOrder | vair/core/memstore.go:522-527 | the comparison of texts is total and irreflexive |
| TableView.TextLessIff | vair/core/memstore.go:522-527 | a text is less than another exactly when it is the beginning of it or has the smaller character where they first differ |
| TableView.FilterTermsMatch | vair/core/memstore.go:335-348 | the walk with its map accepts exactly when every column named has a term that is met |
| Sorting.SortOfSorted | vair/core/memstore.go:451 | a stable sort leaves a list in order alone |
| Sorting.StableSortIff | vair/core/memstore.go:451 | sorting stably gives the one list that is in order and in which the elements that tie stand as they did |
| Sorting.AscendingIsDetermined | vair/core/memstore.go:451 | two ascending lists of the same elements are equal |
| TableWindow.MemOrder | vair/core/memstore.go:352-458 | filters, hidden duplicates, sort and the shortcut of the default view give the specified rows |
| TableWindow.Select | vair/core/memstore.go:393-449 | the walk with its set of seen servers selects the positions that are shown |
| TableWindow.SelectedExactly | vair/core/memstore.go:393-449 | an entry is selected exactly when it passes every filter and no earlier passing entry is the same server |
| TableWindow.DefaultAgreesIff | vair/core/memstore.go:363-371 | the shortcut agrees with the sort if and only if the list is in index order |
| TableWindow.TableShows | vair/core/memstore.go:352-458 | a list is the one shown if and only if it ascends in the mode's order with entries that tie as in the tab, and holds those some position shows; where no index is carried twice, if and only if it ascends strictly and has exactly the entries some position shows |
| WindowRules.TableGoesByRules | vair/core/memstore.go:335-458 | a plain query shows the list; any other shows, sorted stably by the column its text names, in its direction, exactly the positions whose entry has a met term for every column named, is of a protocol chosen and hidden by no rule, and, when duplicates are hidden, behind no such copy |
| TableWindow.ScrollShowsAll | vair/core/memstore.go:578-596 | consecutive windows of any size lay end to end to the whole order; a window without a limit is the rest |
| WindowRules.WindowShows | vair/core/memstore.go:578-596 | a window is the rows from the offset on, as many as the limit, or all when it is not positive; a negative offset is the start and one past the end shows none |
| TableWindow.HeaderStats | vair/core/memstore.go:597-615 | the counters are the counts, the smallest delay there is and the largest speed |
| QuerySig.SignatureIff | vair/core/memstore.go:190-202 | queries without separators share a signature if and only if they ask the same, with the result version where the order depends on it |
| QuerySig.CommaJoins | vair/core/memstore.go:190-202 | nothing is escaped: a comma inside a type reads as two types |
| QuerySig.NoTypeJoins | vair/core/memstore.go:190-202 | no type filter and a filter on the empty type share a signature but not a result |
| QuerySig.TableCacheAgrees | vair/core/memstore.go:29-42 | the same of the program's own signatures and result version, for queries without separators |
| TableCache.MemCache.Lookup | vair/core/memstore.go:352-361 | a cached order is served for its tab and signature only, else the generation to compute at |
| TableCache.MemCache.Invalidate | vair/core/memstore.go:97-105 | the generation moves on and the tab's order is dropped |
| TableCache.MemCache.Store | vair/core/memstore.go:463-469 | an order computed at a generation that has passed is not kept |
| TableCache.StepKeepsInv | vair/core/memstore.go:29-42 | every step of readers, writers and tests keeps: what is cached or about to be is current, unless a writer of the tab owes its invalidation, or results the order depends on were announced since or are still to be |
| TableCache.StepMovesSlot | vair/core/memstore.go:97-105 | every step moves slot and generation as the cache object's own lookup, store and invalidation do, and nothing else moves them |
| TableCache.CacheAgrees | vair/core/memstore.go:29-42 | in every interleaving of readers, writers and tests, for any signature that tells the queries asked apart: while no writer of the tab is between change and invalidation, and, for an order by results, no test between result and announcement, a cached order is the one asked for over what the tab holds now, results included |
| WeightedMean.MeanAppend | vair/core/nodestats.go:275-289 | moving the mean a fifth of the way is the weighted mean of the longer history |
| WeightedMean.VarianceAppend | vair/core/nodestats.go:277-285 | the variance in place is second moment less squared mean under the same weights |
| WeightedMean.MeanBounds | vair/core/nodestats.go:275-289 | the mean lies among the values |
| WeightedMean.VarianceBound | vair/core/nodestats.go:277-285 | the variance is at most (max - mean)(mean - min), and not negative |
| NodeStats.FoldPing | vair/core/nodestats.go:258-289 | the three figures after one more ping, seeding included |
| NodeStats.AfterPing | vair/core/nodestats.go:232-293 | the row goes on describing the whole history |
| NodeStats.AfterSpeed | vair/core/nodestats.go:149-183 | the same for a speed measurement |
| NodeStats.Table.RecordPing | vair/core/nodestats.go:232-293 | in place: the row of one server describes its history with the new check, every other row stays |
| NodeStats.Table.RecordSpeed | vair/core/nodestats.go:149-183 | only a positive measurement is recorded |
| NodeStats.FiguresAreBounded | vair/core/nodestats.go:232-293 | for every history: min <= average <= max and 0 <= variance <= (max - avg)(avg - min) |
| NodeStats.SpeedFiguresAreBounded | vair/core/nodestats.go:149-183 | the speed pair likewise |
| NodeStats.SuccessRateIsAShare | vair/core/nodestats.go:232-293 | the success rate stays in [0, 1] |
| NodeStats.FailureMovesOnlyTheRate | vair/core/nodestats.go:258-289 | a failure moves the rate and the windows of checks, nothing else |
| StatRules.PingMakesStep | vair/core/nodestats.go:232-293 | the rows before and after a ping, whatever the history, are one step apart: an answer, half a minute at most, seeds the delay pair or moves it a fifth of the way; the rate moves a fifth; the sample, -1 for a failure, and its minute enter windows of twenty |
| StatRules.SpeedMakesStep | vair/core/nodestats.go:149-183 | the same of a speed measurement: its pair, and its hundredths in 16 bits and its minute in windows of eight |
| WindowText.TimesToText | vair/core/nodestats.go:412-423 | the minutes are written as a first one and gaps |
| WindowText.TimesRoundTrip | vair/core/nodestats.go:412-444 | reading the text gives the minutes back, gaps that wrap in 32 bits included |
| WindowText.RecentToText | vair/core/nodestats.go:469-481 | the samples are written in order, joined by commas |
| WindowText.RecentFromText | vair/core/nodestats.go:483-495 | every part that is a number is read, in 16 bits, and the others are passed over |
| WindowText.RecentRoundTrip | vair/core/nodestats.go:469-495 | the samples likewise |
| WindowText.TimesFromText | vair/core/nodestats.go:425-444 | a text is read up to the first part that is no number |
| WindowText.AlignTimes | vair/core/nodestats.go:451-464 | the newest minutes line up with the samples, zeros before them |
| Ranking.ThinCharge | vair/core/nodestats.go:344-352 | the charge is between 0 and 35 percent and nothing exactly from three measurements on |
| Ranking.ThinChargeFades | vair/core/nodestats.go:344-352 | it fades in equal steps |
| Ranking.SteadyBeatsErratic | vair/core/nodestats.go:136-138 | of two servers with one average speed the steadier is not behind, and none is relied on for more than its average |
| Ranking.SoonerIsStrictWeak | vair/core/autoconnect.go:672-705 | the comparison is a strict weak order in all four modes |
| Ranking.AutoCandidates | vair/core/autoconnect.go:575-707 | the gathering loop and the sort give the specified list |
| Ranking.CandidatesExactly | vair/core/autoconnect.go:575-671 | the candidates are the configs one may connect to, each from the first entry that carries it |
| Ranking.OfferedOnce | vair/core/autoconnect.go:583-602 | no config is offered twice |
| Ranking.TiesKeepListOrder | vair/core/autoconnect.go:672-707 | of two candidates neither of which comes before the other, the one listed earlier stands earlier |
| Ranking.AnsweredFirst | vair/core/autoconnect.go:603-675 | in every mode the answered come before the untried, those before the failed |
| Ranking.FiguresFirst | vair/core/autoconnect.go:632-688 | ranking by reliable speed, no answered candidate without a figure stands before one with a figure |
| Ranking.LastMeasurementOrders | vair/core/autoconnect.go:672-688 | by the last measurement: shortest delay, or greatest speed with the unmeasured behind |
| Ranking.HistoryOrders | vair/core/autoconnect.go:623-688 | by history: smallest stability score, or, with trusted records, the greatest speed to rely on |
| Ranking.RecordsFirst | vair/core/autoconnect.go:689-705 | where nothing answered, records come first, the better score before |
| Ranking.HistoryChargesTheDelay | vair/core/nodestats.go:361-367 | the stability score is never below the fastest delay of the history, and its charges are bounded |
| RankRules.SoonerIsPrecedes | vair/core/autoconnect.go:603-705 | in every mode the comparison is one rule over what is known of two servers: by delay; by fresh speed, then delay; by mean, jitter and reliability, or the last delay and a charge for each measurement missing; by the speed to rely on, then that delay; records first where nothing answered |
| RankRules.OffersExactly | vair/core/autoconnect.go:575-671 | the list offers the first entry of each config that is not left out, hidden, unusable or paused, and no other, and calls rank 0 exactly those that answered |
| RankRules.OfferedInOrder | vair/core/autoconnect.go:575-707 | of two entries offered the one that precedes stands first, and where neither does the one listed first |
| Sweep.PausesDouble | vair/core/autoconnect.go:828-843 | the k-th pause in a row is 30 s doubled k-1 times, at most 30 minutes |
| Sweep.CandidatesForConnect | vair/core/autoconnect.go:1076-1085 | the pauses are ignored when they leave nobody |
| Sweep.PausesNeverLock | vair/core/autoconnect.go:1063-1085 | there is nobody to try if and only if the pool holds no config one may connect to |
| Sweep.CandidatesArePool | vair/core/autoconnect.go:575-671 | the ranked list is the pool less the paused, each once |
| Sweep.PreferredPermutes | vair/core/autoconnect.go:1110-1126 | preferring the last config only changes the order |
| SweepRules.ConnectGoesByRules | vair/core/autoconnect.go:1076-1200 | what connecting from the pool does, end to end: the list is the ranked one of those not paused, or of all when that is empty; the preferred config goes first exactly when its first candidate has rank 0, and else the order is the ranked one; eight attempts at most go down it while AUTO is on, to the first that connects; what failed is paused for 30 s or twice its last pause, 30 minutes at most, from the end of its attempt, what connected is paused no more, the rest stays, and all is lifted when the whole list failed |
| Sweep.Supervised.ConnectFromPool | vair/core/autoconnect.go:1092-1200 | the sweep in place: attempts, pauses and outcome are those specified |
| Sweep.SweepBounds | vair/core/autoconnect.go:1092-1200 | at most eight attempts, in ranked order, connected exactly when the last of them was; what connected is not paused |
| Sweep.SweepSparesOthers | vair/core/autoconnect.go:1092-1200 | a config that is not tried keeps its pause, unless all are lifted |
| Sweep.PassesAdvance | vair/core/autoconnect.go:1092-1200 | in an outage the paused are exactly those tried, eight a sweep |
| Sweep.OutageTriesEveryone | vair/core/autoconnect.go:1092-1200 | over N configs none of which works, ceil(N/8) sweeps try every one, then every pause and backoff is lifted, whatever the rankings were |
| Liveness.LivenessWatch.Look | vair/core/watchdog.go:66-97 | the hint and the counters kept are those specified |
| Liveness.HintsMean | vair/core/watchdog.go:56-103 | alive: bytes came back since the look before; suspect: bytes that left five seconds ago or more are unanswered, at any point of the session |
| Supervisor.LeavingNeedsEvidence | vair/core/autoconnect.go:1836-1884 | over every run, a switch or an ending on probes happens only when the last health probes, as many as the threshold at least, all found the server dead or over the budget, with no good one and no gap between |
| Supervisor.CountersIgnored | vair/core/autoconnect.go:1796-1835 | with a failure counted, the byte counters change nothing a pass does |
| Supervisor.PassReasons | vair/core/autoconnect.go:1836-1983 | a slow server is left only past the minimum stay and for a faster one or when gone from the pool; a dead one at once; a chain is closed only when dead, with the intent disarmed; and exactly which events clear the count |
| Supervisor.ChainReplacedIff | vair/core/autoconnect.go:1703-1774 | a chain is replaced exactly by Switch now or by leaving the pool under AUTO, never by a probe |
| Supervisor.EndedStaysEnded | vair/core/autoconnect.go:1915-1943 | after a chain is closed nothing is connected, over any run, until somebody asks |
| Supervisor.DeadIsLeft | vair/core/autoconnect.go:1817-1983 | once a probe has failed, a server that stays dead is left at the threshold-th probe, however short its stay |
| DeadServers.DeadIsLeftInTime | vair/core/autoconnect.go:1781-1983 | a server that dies, whatever was known of it before, its counters standing still, is left on a probe within the longer of the probe interval and ten seconds for the first probe, the short recheck for each further one up to the threshold, and the time between passes |
| Supervisor.LeavingPauses | vair/core/autoconnect.go:1703-1983 | the server left is paused for its next, doubled, pause, unless all pauses are lifted |
| Returns.LeftIsNotTried | vair/core/autoconnect.go:1063-1200 | over every run whose lists are made from the pool with the pauses of their time: a server left by hand or by a probe is not tried again before its pause is over, unless everybody failed and the pauses were lifted, or they leave nobody else |
| Supervisor.TunFloor | vair/core/autoconnect.go:1591-1600 | over every run, Switch now never moves a tunnel within four seconds of its last move |
| Supervisor.FloorBrokenIff | vair/core/autoconnect.go:1591-1983 | exactly when a pass moves a tunnel within the four seconds: never forced, by a changed pool past the minimum stay, or by a probe that has the server left |
| Supervisor.FloorIsBroken | vair/core/autoconnect.go:1591-1983 | for a changed pool, a failed probe and a slow server each, a run from the start that moves a tunnel two seconds after its last move |
| Supervisor.DwellKeepsTheFloor | vair/core/autoconnect.go:1591-1983 | a minimum stay of four seconds or more keeps the floor for a changed pool and for a faster server, over every run |
| Supervisor.JoiningKeepsTheCount | vair/core/autoconnect.go:2036-2046 | connecting from rest does not reset the failure count |
| PassRules.PassGoesByRules | vair/core/autoconnect.go:1564-2048 | every pass by its table: exactly when it moves by hand, for a changed pool, for a dead or a slow server, closes a chain or joins from rest; exactly what it notes; and what it leaves of the count, the four times, the four flags, the counters looked at and the pauses; with the threshold, two when unset, the spacings of 120, 10 and 5 s, the budget, none at 0, and the four seconds written out |
| SupervisorLoop.AutoSupervisor.Tick | vair/core/autoconnect.go:1564-2048 | one pass of the loop, updating its counters and timers in place, is one step |
| SupervisorLoop.AutoSupervisor.Health | vair/core/autoconnect.go:1781-1866 | the health check: hint, spacing, probe |
| SupervisorLoop.AutoSupervisor.AfterFailure | vair/core/autoconnect.go:1867-1983 | the branches behind a bad probe |
| SupervisorLoop.AutoSupervisor.Idle | vair/core/autoconnect.go:1984-2046 | the branch of a connection at rest |
| ConnBook.Conns.Begin | vair/core/connlist.go:113-142 | a new row, the oldest making room at the limit; nothing while recording is off |
| ConnRules.BeginGoesByRules | vair/core/connlist.go:113-142 | a new row with nothing carried, and of 512 rows the one that started first leaves the list for it |
| ConnBook.Conns.End | vair/core/connlist.go:150-164 | the row leaves the list and what it carried since the clear goes to the totals, once |
| ConnRules.EndGoesByRules | vair/core/connlist.go:150-164 | an end closes an open row and takes it off the list; with a destination, recording on and something carried since a clear, or no clear, it adds one count and what was carried since to that program and destination, of 2000 totals dropping the one named as quietest; a second end does nothing |
| ConnRules.QuietestExists | vair/core/connlist.go:512-522 | a table that holds anything has a total that has been quiet longest, so an end at the limit always finds one to drop |
| ConnBook.Conns.Adopt | vair/core/connlist.go:186-207 | the relay takes the newest untaken engine row for the destination, or none while recording is off |
| ConnBook.Conns.Merge | vair/core/connlist.go:235-264 | the engine's row goes into the relay's |
| ConnRules.AdoptGoesByRules | vair/core/connlist.go:186-207 | the row taken over is in the list, for that destination, not exact, not taken, and no such row started later; there is none exactly when no row of the list is such; that row turns exact and taken and nothing else changes |
| ConnRules.MergeGoesByRules | vair/core/connlist.go:235-264 | the row joined is another one in the list, for the same destination, exact, without a program, not taken, started from 2 s before to 5 s after, and no such row started earlier; it takes the program, and the rule and the way where they are known; the other leaves the list closed; nothing happens exactly when there is no such row or the other was taken |
| ConnBook.Conns.Clear | vair/core/connlist.go:595-624 | totals emptied; open rows start again, or go when recording is off |
| ConnRules.ClearGoesByRules | vair/core/connlist.go:595-624 | a clear empties the totals; with recording on every row of the list starts again from what it has carried, and else the list is emptied, no row changed |
| ConnBook.Conns.ConnectionTotals | vair/core/connlist.go:541-591 | what is shown is stored totals plus every open row, for every program and destination |
| ConnBook.EndKeepsTotals | vair/core/connlist.go:150-164 | ending an open row leaves every count and byte total as it was; a pushed-out row brings its share back |
| ConnBook.EndKeepsIff | vair/core/connlist.go:150-164 | exactly when: nothing to count, or recording on and the table not full |
| ConnBook.SecondEndIsNothing | vair/core/connlist.go:150-153 | the second owner's end adds nothing |
| ConnRuns.ChosenIsExtreme | vair/core/connlist.go:122-134 | the row evicted, or taken over, is really the oldest, or newest, of those eligible |
| ConnRuns.RunsKeepBounds | vair/core/connlist.go:113-164 | over every run from a sound book: at most 512 rows and 2000 totals, no closed row in the list, no bytes on rows only the engine sees |
| ConnRuns.BeginMoves | vair/core/connlist.go:113-142 | a new connection adds one to its program and destination and no bytes |
| ConnRuns.AdoptMovesNothing | vair/core/connlist.go:186-207 | taking over changes no figure |
| ConnRuns.MergeMoves | vair/core/connlist.go:235-264 | joining removes the engine's row uncounted and moves the relay's to the program the engine named |
| ConnRuns.TrafficMoves | vair/core/stats.go:272-291 | traffic of an open row adds exactly its bytes, counted before or not |
| ConnRuns.ClearEmpties | vair/core/connlist.go:595-624 | right after a clear every figure is zero |
| ConnRuns.ClearForgetsIff | vair/core/connlist.go:595-624 | exactly when what a connection carried before the clear stays forgotten |
| ConnRuns.ClearedComesBack | vair/core/connlist.go:595-624 | a connection's life from the start in which the bytes gone at a clear are back at its end |
| ConnLedger.PostsKeepBooks | vair/core/connlist.go:113-264 | every operation, recording on or off, at the limits or not, keeps the two tables in step with a ledger that has one line for every connection |
| ConnLedger.ShownIsLedger | vair/core/connlist.go:541-591 | over every run from the start, evictions, full tables, clears and pauses of recording included, the counts and bytes shown for a program and destination are the sums of its connections' lines |
| ConnLedger.CountedOnce | vair/core/connlist.go:113-264 | over every run with recording on, no clear and room among the totals, whatever is interleaved: the ledger holds one count for every connection begun less one for every row joined to another, and exactly the bytes that reached one, whoever took over or ended what, and in what order |
| ConnLedger.AllShownIsGained | vair/core/connlist.go:541-591 | the same of what is displayed: the figures shown for all programs and destinations together, with those of connections pushed out of the list or without a destination, are the connections begun less those joined, and the bytes that reached one |
| ConnLedger.MergedEndIsNothing | vair/core/connlist.go:150-264 | the engine's end of a connection that was joined changes nothing |
| ConnLedger.BytesSinceClear | vair/core/connlist.go:541-624 | over every run after a clear, the bytes shown are, row by row and under the name the row has now, what it has carried since, with what rows pushed out before the clear had before |
| ConnLedger.LeftByClear | vair/core/connlist.go:595-624 | a clear with recording on leaves nothing of an open connection, all of one pushed out before, and forgets the ended ones |
| QrTiles.Starts | vair/core/qr_decode.go:98-110 | starts every step, the last flush with the end, covering the axis, for every size |
| QrTiles.FullResTiles | vair/core/qr_decode.go:90-119 | the tiles are every start across with every start down, clipped to the image |
| QrTiles.SquareInOneTile | vair/core/qr_decode.go:86-124 | every square of side up to 401 inside the image lies whole in one tile |
| QrTiles.TilesStayInside | vair/core/qr_decode.go:111-119 | every tile lies within the image, is not empty and is no larger than a tile may be |
| QrTiles.NothingToCut | vair/core/qr_decode.go:111-119 | an image without a pixel gives only the zero rectangle |
| QrTiles.LargerSquaresMayBeCut | vair/core/qr_decode.go:86-124 | for every larger side there are an image and a square inside it of that side that no tile holds whole |

## Left out

- Go's own parsers of addresses, ports and URLs (`net.SplitHostPort`, `net.ParseIP`, `url.Parse` and the like) are parameters of the reader with only the facts it relies on.
- `parseNode`, `nodeBody`, `dedupKey` and `setNodeName` are parameters: share-link parsing is not part of this model.
- Letters are lowered as in ASCII, and texts are sequences of characters compared by code; Unicode case folding is not modelled.
- How a filter text becomes terms and when a term matches an entry (`parseFilterTerms`, `termHitKey`): the terms and the match are parameters of the filter.
- Averages, scores and speeds are real numbers and the square root is a parameter; floating-point rounding and NaN are not modelled.
- The cache's generation counter and byte counters are unbounded; 64-bit wrap-around is not modelled.
- Edits of an entry in place that do not invalidate the cache, such as a rename, are outside the claim about the cache.
- The sixty-second life of an undo is a step that forgets it; notices and sounds are left out.
- Renaming one entry, adding one and deleting one entry's duplicates (`entry_api.go`, `config_form_api.go`) add only easy cases.
- TableWindow.TableShows: speaks of the default view, where it takes its shortcut, on tabs in index order; `TableWindow.DefaultAgreesIff` says that the shortcut is not the sorted view of others.
- Supervisor.TunFloor: speaks of Switch now; of the other paths the floor is false, and `Supervisor.FloorBrokenIff` is exact.
- DestSpies.RunIsOneFeed: speaks of streams that no absolute-URL request carries a payload in; of those it is false, as `DestSpies.UrlPayloadDependsOnCut` shows.
- DestSpies.CutsNeverInvent: likewise; there a cut may make a call that one feed does not.
- DestSpies.CallsGrow: likewise; there more bytes in one feed may take a name away.
- DestSpies.DoneIsFinal: likewise.
- DestSpies.ChunksDoNotMatterIff: likewise; `UrlCuts.CutsDoNotMatterIff` covers them.
- DedupRules.DeleteShowsWhatHideShows: takes the identity to fix the cipher, capitals aside, which the program's identities of Shadowsocks links do (`vair/core/dedup.go:211-217`) for ciphers named without spaces around them.
- SQLite: a tab on disk is the order last written, a write may fail.
- Where equally old rows, or equally quiet totals, compete, the program takes whichever its map yields first; the model takes the lowest ID for rows and any for totals.
- ConnBook.Conns.Adopt: two connections to one destination in the same instant may be matched the other way round, as the source says itself; which is which is not part of the claim.
- ConnBook.Conns.ConnectionTotals: the order of the rows shown, and the route and rule shown with them, follow the order in which the program's map yields its rows, and are not stated.
- Reading the engine's log lines, FakeIP ranges and expiry of rows whose end was never logged.
- The connections of the watchdog while AUTO is off, the system-proxy guard, kill-switch, notifications and panel messages of the supervisor loop.
- In the supervisor, time is a number of seconds read once per pass; whether a faster candidate exists, whether the pool is measured and what a probe finds are inputs.
- `autoHasFasterCandidate` and its margins are an input of the step.
- Process launching, ports, HTTP probes, firewall, DNS transport, tray and windows, engine configuration and QR image decoding: effects of the operating system or of other programs.
