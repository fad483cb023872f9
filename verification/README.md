# Verified models of WebKit's small machines

This project models the parts of this repository whose behaviour can be stated exactly and is hard to see from
the code alone, and proves what they promise for every input or every run. `dafny verify dfyconfig.toml` checks it.

- **The keyword matcher compiler** (`KeywordTrie`, `KeywordTrieNode`, `KeywordOrder`, `KeywordWeights`,
  `KeywordCode`, `KeywordCompare`, `KeywordMatcher`). The generator builds a trie of keywords in place, coalesces it,
  orders siblings by weight and prints nested comparisons. The printed code is a datatype with an evaluator; the
  comparison macros are byte loads on a little- or big-endian machine. The main theorem, `MatcherCorrect`, says
  what the printed code recognises in memory.
- **CRC-32** (`ShiftRegister`, `Crc`, `CrcDivision`). The table loop refines the bit-serial register of section 8 of
  RFC 1952, which holds the remainder of long division by the generator of CRC-32; every error burst within 32 bits
  is detected, and 33 bits are too many.
- **Agents of the jsc shell** (`Agents`, `AgentHistory`). Registration, broadcasts, reports, condition waits and the
  start handshake are atomic steps of a state machine; the theorems hold in every reachable state and of every run.
- **Module paths of the jsc shell** (`Splitting`, `ModulePath`).
- **The WebDriver server**: request routing (`Routing`, whose second module `CommandTable` holds the server's own
  table), capabilities (`Json`, `Capabilities`, `CapabilityRules`), session negotiation and its reply (`NewSession`,
  `SessionReply`), windows and frames (`BrowsingContext`, `OverlappingCommands`, `CommandHistory`), pending commands
  (`SessionHost`), typing (`SendKeys`), action ticks (`ActionTicks`, `PerformActions`) and script results
  (`ScriptResult`). The browser may answer anything.
- **Two small tools**: the package closure of the Cygwin downloader (`PackageClosure`) and the input lines of
  DumpRenderTree (`CommandTokenizer`, `InputLine`).

Code that updates objects, vectors or maps in loops is modelled by classes and methods, each proved against a
function on values; the theorems are about those functions. Protocols are state machines over their steps. Beside
the theorems about what steps keep there are theorems that tell the state from the steps taken (`History`), which do
not look at how a step is carried out.

Some promises do not hold everywhere; each comes with its exact condition and an input that breaks it:

- `InputLine.RoundTrip`: what the test driver prints is what DumpRenderTree parses, unless a pixel test also asks
  for the console (the switch for the console is then taken for the image hash), or a timeout other than the
  default is left out.
- `NewSession.SessionLostExactly`: the guard against a second session is tested when a request comes, long before
  its session exists, so overlapping requests can replace a live session, and only those can.
- `OverlappingCommands.CrashesExactly` and `OverlappingCommands.MixesExactly`: when requests to a session overlap, a
  handle can be read that is not there, or a frame kept beside a window it was not found in, exactly in the states
  these describe; serial runs never reach them. A request is one command from its first wait to its last answer.
- `SessionReply.TimeoutsAreTold`: a session's timeouts are told as asked for exactly if they fit a 32-bit integer.
- `PerformActions.Session.PerformSources`: actions that the parser accepts end the program exactly if some pointer
  move lacks a coordinate.

## Model

| member | source | states |
|---|---|---|
| `KeywordTrie.InsertAllDenotes` | Source/JavaScriptCore/KeywordLookupGenerator.py:103-109 | for every keyword list, the trie built by inserting gives each text the token it was last listed with, and no other text a token |
| `KeywordTrie.CoalesceDenotes` | Source/JavaScriptCore/KeywordLookupGenerator.py:111-126 | coalescing keeps the token of every text |
| `KeywordTrie.CoalesceBranches` | Source/JavaScriptCore/KeywordLookupGenerator.py:111-126 | after coalescing every node below the root that holds no token has at least two children, and siblings start differently |
| `KeywordTrieNode.TrieNode.Insert` | Source/JavaScriptCore/KeywordLookupGenerator.py:103-109 | inserting into the tree of objects in place does what inserting into the value does, touching only the tree's own nodes |
| `KeywordTrieNode.TrieNode.Coalesce` | Source/JavaScriptCore/KeywordLookupGenerator.py:111-126 | coalescing the tree of objects in place, merging only children into their parents, does what coalescing the value does |
| `KeywordTrieNode.BuildTrie` | Source/JavaScriptCore/KeywordLookupGenerator.py:214-219 | the driver's tree is the coalesced trie of the list; the result of the outermost coalescing is dropped, so the root is never merged away |
| `KeywordOrder.SortCorrect` | Source/JavaScriptCore/KeywordLookupGenerator.py:128-138 | ordering siblings gives a permutation, heaviest first, equal weights in their old order |
| `KeywordOrder.PermutedDenotes` | Source/JavaScriptCore/KeywordLookupGenerator.py:128-138 | reordering siblings never changes the token of any text |
| `KeywordOrder.FillOutDenotes` | Source/JavaScriptCore/KeywordLookupGenerator.py:128-138 | filling in full prefixes and weights, with siblings in any order, keeps the token of every text |
| `KeywordOrder.FillOutOrders` | Source/JavaScriptCore/KeywordLookupGenerator.py:128-138 | after filling out, siblings are heaviest first at every node |
| `KeywordWeights.FillOutWeighs` | Source/JavaScriptCore/KeywordLookupGenerator.py:128-138 | after filling out, with siblings in any order, every node weighs the sum of the weights of the weighted texts that start with its path and are themselves paths of nodes |
| `KeywordCode.TestDecides` | Source/JavaScriptCore/KeywordLookupGenerator.py:150-160 | a comparison widened backwards from three to four characters decides the same edge, given the characters already matched |
| `KeywordCode.EmitComplete` | Source/JavaScriptCore/KeywordLookupGenerator.py:140-174 | when a token's text is in the buffer and followed by no identifier part, the printed code finds it |
| `KeywordCode.EmitSound` | Source/JavaScriptCore/KeywordLookupGenerator.py:140-174 | whatever the printed code finds is a token of the trie, in the buffer and followed by no identifier part |
| `KeywordCode.EmitReads` | Source/JavaScriptCore/KeywordLookupGenerator.py:140-190 | no comparison reads, and no boundary check looks, past one more than the longest keyword |
| `KeywordCode.EmitCompiles` | Source/JavaScriptCore/KeywordLookupGenerator.py:150-160 | every printed comparison has a macro if and only if every coalesced edge has one to eight characters |
| `KeywordCompare.Compare2Means` | Source/JavaScriptCore/KeywordLookupGenerator.py:222-262 | the two-character macros, packed or one by one, for either width and byte order, are equality of both characters |
| `KeywordCompare.Compare4Means` | Source/JavaScriptCore/KeywordLookupGenerator.py:222-280 | the four-character macros, as one load, two pairs or one by one, are equality of all four characters |
| `KeywordCompare.CompareMeans` | Source/JavaScriptCore/KeywordLookupGenerator.py:222-302 | every macro for one to eight characters, the overlapping one for seven included, is character-wise equality on the machine that uses it |
| `KeywordMatcher.PrintSubTree` | Source/JavaScriptCore/KeywordLookupGenerator.py:140-174 | printing a subtree in a loop over its children gives the code that the theorems are about |
| `KeywordMatcher.MatchesKeywords` | Source/JavaScriptCore/KeywordLookupGenerator.py:103-212 | the generated matcher returns a token and a length exactly when that keyword starts the buffer and no identifier part follows, for any order of siblings |
| `KeywordMatcher.MatchesIdentifiers` | Source/JavaScriptCore/KeywordLookupGenerator.py:184-212 | it returns an identifier exactly when no keyword qualifies |
| `KeywordMatcher.AtMostOneQualifies` | Source/JavaScriptCore/KeywordLookupGenerator.py:140-174 | at most one keyword can start a buffer and end at a boundary |
| `KeywordMatcher.MatcherCorrect` | Source/JavaScriptCore/KeywordLookupGenerator.py:103-302 | end to end: with the macros run on memory, on a buffer one longer than the longest keyword, the matcher returns exactly the qualifying keyword, or an identifier |
| `KeywordMatcher.ShippedMatcherCorrect` | Source/JavaScriptCore/KeywordLookupGenerator.py:41-302 | the same of the generator with its own weights; of two siblings printed, the first is the one below which the weighted texts add up to more, and the keywords too if every weighted text is a keyword |
| `KeywordMatcher.GeneratedWeighs` | Source/JavaScriptCore/KeywordLookupGenerator.py:103-138 | from list to trie: a node weighs the sum over the weighted texts that are paths below it, and over the listed keywords with its path as prefix where no weighted text is missing from the list |
| `KeywordMatcher.MaxTokenLength` | Source/JavaScriptCore/KeywordLookupGenerator.py:176-190 | the printed maximum length is the length of the longest keyword |
| `KeywordMatcher.ShortKeywordsCompile` | Source/JavaScriptCore/KeywordLookupGenerator.py:140-160 | keywords of at most eight characters always give code whose comparisons exist |
| `Crc.CrcState.MakeCrcTable` | Tools/DumpRenderTree/CyclicRedundancyCheck.cpp:36-48 | each table entry is eight shifts of the bit-serial register |
| `Crc.CrcState.ComputeCrc` | Tools/DumpRenderTree/CyclicRedundancyCheck.cpp:50-63 | the table-driven checksum of every buffer is the bit-at-a-time one with complement before and after; the table is filled once and kept |
| `Crc.ByteStep` | Tools/DumpRenderTree/CyclicRedundancyCheck.cpp:59-62 | one table lookup is eight single-bit steps, by linearity over exclusive or |
| `Crc.BurstsDetected` | Tools/DumpRenderTree/CyclicRedundancyCheck.cpp:50-63 | streams that differ only inside 32 consecutive bits share a checksum if and only if they are equal |
| `Crc.FourByteWindowDetected` | Tools/DumpRenderTree/CyclicRedundancyCheck.cpp:50-63 | buffers that differ only inside four consecutive bytes share a checksum if and only if they are equal |
| `Crc.FiveBytesCollide` | Tools/DumpRenderTree/CyclicRedundancyCheck.cpp:50-63 | two five-byte buffers that differ only within their first 33 bits share a checksum, so the window is as wide as can be |
| `CrcDivision.CrcIsRemainder` | Tools/DumpRenderTree/CyclicRedundancyCheck.cpp:36-63 | for every stream of bits the checksum is the complement of the remainder of long division by the generator of CRC-32, given by its exponents as in section 8 of RFC 1952, of the message with 32 places below it and its first 32 coefficients complemented |
| `CrcDivision.DivisionLaw` | Tools/DumpRenderTree/CyclicRedundancyCheck.cpp:36-63 | that remainder is one: every polynomial is a multiple of the generator plus its remainder |
| `CrcDivision.CheckValue` | Tools/DumpRenderTree/CyclicRedundancyCheck.cpp:36-63 | the checksum of the bytes of "123456789" is 0xCBF43926 |
| `CrcDivision.ComputeCheckValue` | Tools/DumpRenderTree/CyclicRedundancyCheck.cpp:50-63 | and the table-driven loop gives it |
| `Agents.StepKeeps` | Source/JavaScriptCore/jsc.cpp:1683-1859 | every step of every thread keeps the invariant on lock, registrations, deliveries, reports, waits and starts |
| `Agents.DeliveredExactly` | Source/JavaScriptCore/jsc.cpp:1683-1747 | in every reachable state with the lock free, what a worker has taken followed by its queue is the broadcast log since it registered without its own messages |
| `Agents.TakenInOrder` | Source/JavaScriptCore/jsc.cpp:1699-1747 | at any time, even after a worker has gone, the i-th message it took is the i-th it was owed: none skipped, repeated or out of order |
| `Agents.OneTotalOrder` | Source/JavaScriptCore/jsc.cpp:1738-1747 | in every reachable state, where messages two workers have taken are the same broadcasts, they are the same messages and were taken in the same order by both |
| `Agents.NoLostWakeups` | Source/JavaScriptCore/jsc.cpp:1704-1770 | with the lock free, no thread waits for a message, a report or a start that is there |
| `Agents.ReportsInOrder` | Source/JavaScriptCore/jsc.cpp:1749-1770 | reports taken followed by reports pending are the reports made, in order |
| `Agents.StartedIsListening` | Source/JavaScriptCore/jsc.cpp:1825-1859 | once starting an agent has returned, the agent had registered before, and is owed every later broadcast but its own |
| `Agents.HolderProceeds` | Source/JavaScriptCore/jsc.cpp:1704-1754 | whoever holds the lock has a step to take |
| `AgentHistory.EachReturnTakesOne` | Source/JavaScriptCore/jsc.cpp:1704-1770 | in every run, a worker has taken as many messages as its dequeues have returned, and reports taken are as many as gets that returned and tries made with one pending; no other step takes either |
| `AgentHistory.HistoryIsTold` | Source/JavaScriptCore/jsc.cpp:1738-1859 | in every run, the broadcasts, the reports, the signals and the starts recorded are those of the steps taken, in order |
| `AgentHistory.RoundsReturnExactly` | Source/JavaScriptCore/jsc.cpp:1704-1770 | one round of a dequeue or of getting a report returns exactly if there is one, and waits otherwise |
| `AgentHistory.StartReturnsExactly` | Source/JavaScriptCore/jsc.cpp:1856-1859 | in every run, one round of agent.start returns exactly if the agent has signalled, and waits otherwise |
| `AgentHistory.StartedMustSignal` | Source/JavaScriptCore/jsc.cpp:1831-1845 | in every run, an agent that registers must still signal exactly if it was started by another |
| `ModulePath.ResolvePath` | Source/JavaScriptCore/jsc.cpp:770-794 | the push-and-pop loop and the builder give the root and the pieces that walking the queries leads to |
| `ModulePath.ResolvedIsPlain` | Source/JavaScriptCore/jsc.cpp:770-794 | a resolved path is the root and then only plain pieces: none empty, `.` or `..`, and never above the root |
| `ModulePath.AbsoluteIsFixed` | Source/JavaScriptCore/jsc.cpp:770-794 | an absolute path of plain names resolves to itself |
| `ModulePath.ExtractJoined` | Source/JavaScriptCore/jsc.cpp:712-730 | the directory of a file below a root is that root and the pieces before the file |
| `ModulePath.TwoHops` | Source/JavaScriptCore/jsc.cpp:706-794 | a relative name resolved from the directory of an already resolved file is that name put in the file's place |
| `ModulePath.DetoursCancel` | Source/JavaScriptCore/jsc.cpp:770-794 | going into a directory and out again, `.` and doubled separators change nothing, anywhere in a name |
| `Routing.MatchTokens` | Source/WebDriver/WebDriverService.cpp:205-213 | the inner loop matches a template exactly when every token fits, and then sets each slot to the token in its place, over the parameters it was given |
| `Routing.FindCommand` | Source/WebDriver/WebDriverService.cpp:193-222 | for any table, the first command that answers is found, with its own bindings and none left over from templates that failed half way; otherwise no command answers |
| `Routing.FilledIsAnswered` | Source/WebDriver/WebDriverService.cpp:193-222 | a template filled in with non-empty slash-free values is answered with exactly those values |
| `Routing.AnswerFillsBack` | Source/WebDriver/WebDriverService.cpp:193-222 | the template and the bindings found give the request's tokens back |
| `CommandTable.OneAnswer` | Source/WebDriver/WebDriverService.cpp:111-178 | no request is answered by two commands of the server's table |
| `CommandTable.NotToBeConfused` | Source/WebDriver/WebDriverService.cpp:111-178 | rows of the table that differ in one method or word, with their handlers |
| `CommandTable.TableRoundTrip` | Source/WebDriver/WebDriverService.cpp:111-222 | for every command of the table, its filled-in template finds it, it alone, and the values filled in |
| `CommandTable.TableFillsBack` | Source/WebDriver/WebDriverService.cpp:111-222 | for every request answered, the command and its bindings determine the request's tokens |
| `CommandTable.RouteRequest` | Source/WebDriver/WebDriverService.cpp:111-222 | the server's search returns a command exactly when one answers, and then the only one |
| `Capabilities.ValidatedCapabilities` | Source/WebDriver/WebDriverService.cpp:420-464 | validation fails exactly when some member that is not null is invalid; otherwise it keeps all but nulls and the proxy, in whatever order members are visited |
| `Capabilities.MergeCapabilities` | Source/WebDriver/WebDriverService.cpp:466-480 | merging lays the entry over the required capabilities |
| `Capabilities.MatchCapabilities` | Source/WebDriver/WebDriverService.cpp:482-532 | matching fails exactly when some capability cannot be met; otherwise it lays the request over what the port knows |
| `CapabilityRules.MatchedExactly` | Source/WebDriver/WebDriverService.cpp:482-532 | capabilities are refused exactly if a known name differs beyond letter case, the port's comparison rejects a known version, a known platform is neither asked for nor any, insecure certificates are asked for on a port known not to accept them, or the port refuses what it does not know or any other but the proxy |
| `CapabilityRules.MatchedHolds` | Source/WebDriver/WebDriverService.cpp:482-532 | each capability matched is as asked for, or else as the port knows it, key by key |
| `CapabilityRules.ValidExactly` | Source/WebDriver/WebDriverService.cpp:420-465 | capabilities are invalid exactly if one that is not null is of the wrong kind, or not standard and without a colon or invalid to the port |
| `Capabilities.ProcessCapabilities` | Source/WebDriver/WebDriverService.cpp:534-633 | a malformed request fails as an invalid argument, one with no entry that can be met as no session; otherwise the list of candidates is returned |
| `CapabilityRules.FailsExactly` | Source/WebDriver/WebDriverService.cpp:534-633 | an invalid argument is answered exactly to a request that is malformed, improper or asks for something twice, and no session exactly if it is none of these and no entry fits the port |
| `Capabilities.ProcessedMeans` | Source/WebDriver/WebDriverService.cpp:534-633 | the list holds exactly the entries of firstMatch that can be met, in their order, each the disjoint union of alwaysMatch and the entry laid over what the port knows |
| `NewSession.NegotiateHears` | Source/WebDriver/WebDriverService.cpp:653-692 | working through the reversed list from its end, one answer at a time, is trying the entries from the first to the last |
| `NewSession.WonIsWinnable` | Source/WebDriver/glib/SessionHostGlib.cpp:241-265 | no answer makes a negotiation winnable that was not, and only one that was creates a session |
| `NewSession.CreatedIsEarliest` | Source/WebDriver/WebDriverService.cpp:653-692 | a created session has the capabilities of the earliest entry not turned down, with its browser's own name and version, all earlier ones having been connected to and turned down |
| `NewSession.NegotiationEnds` | Source/WebDriver/WebDriverService.cpp:653-692 | a negotiation is over after at most two answers for each entry and one more |
| `NewSession.RepliedOnce` | Source/WebDriver/WebDriverService.cpp:635-692 | in every run, with any number of requests interleaved, a request is replied to exactly once, when its negotiation is over, and as its own list and answers alone decide |
| `NewSession.RefusedMeans` | Source/WebDriver/WebDriverService.cpp:635-692 | in every run, an unknown error is the reply exactly if a browser failed to start, and an invalid argument only to a request not well asked, which never gets a negotiation |
| `NewSession.RefusedAtOnce` | Source/WebDriver/WebDriverService.cpp:635-660 | a request is refused at once while there is a session, and otherwise exactly if it cannot be processed; if not, its first entry is connected to |
| `NewSession.AnswerReplies` | Source/WebDriver/WebDriverService.cpp:653-692 | a failed connection or context, and a browser that does not match with no entry left, are answered no session, a failed start an unknown error, and only a context made creates the session |
| `NewSession.CreatedSessionMeans` | Source/WebDriver/WebDriverService.cpp:534-692 | from request to reply: the session created has what alwaysMatch and one entry that can be met ask for, nothing being asked for by both, laid over what the port knows, but its browser's own name and version; the browser is the one asked for, and each earlier entry that can be met was tried and turned down |
| `NewSession.SessionLostExactly` | Source/WebDriver/WebDriverService.cpp:635-692 | without further requests the server can replace a live session if and only if two negotiations can still be won, or one beside a session; a negotiation can be won unless every entry left asks for a version that no version meets |
| `NewSession.OverlapLosesSession` | Source/WebDriver/WebDriverService.cpp:635-692 | two requests that can be met, made before any answer, lead to such a state if and only if each lists an entry whose version some version meets |
| `NewSession.OneAtATimeIsSafe` | Source/WebDriver/WebDriverService.cpp:635-692 | a run in which no request comes during a negotiation never replaces a session |
| `SessionReply.DeserializeTimeouts` | Source/WebDriver/WebDriverService.cpp:321-346 | reading timeouts in any order gives each as written, or fails exactly if some member is no timeout |
| `SessionReply.CreatedIsCandidate` | Source/WebDriver/WebDriverService.cpp:534-692 | in every run, the capabilities of a created session are validated ones over those the port knows, with the name and version that its browser told |
| `SessionReply.CreatedIsTold` | Source/WebDriver/glib/SessionHostGlib.cpp:241-265 | in every run, the reply to a created session, through starting, parsing and printing, tells the browser's own name and version, the name being the one asked for or known, if any, and the version one that will do; platform, certificates, page load strategy, prompt behaviour and timeouts are told as asked for or known, and otherwise as a fixed default, whether windows can be moved as the port knows, and an empty proxy |
| `SessionReply.TimeoutsAreTold` | Source/WebDriver/WebDriverService.cpp:734-738 | each timeout is told as asked for if and only if it fits a 32-bit integer, and otherwise as the largest; one not asked for as sessions have it |
| `SessionReply.LongTimeoutIsCut` | Source/WebDriver/WebDriverService.cpp:734-738 | a timeout of 2147483648 milliseconds is told as one less |
| `BrowsingContext.Session.SwitchToTopLevelBrowsingContext` | Source/WebDriver/Session.cpp:146-150 | selecting a window forgets the frame |
| `BrowsingContext.Session.SwitchToBrowsingContext` | Source/WebDriver/Session.cpp:152-159 | selecting a frame keeps the window; no frame and the empty handle both mean the main frame |
| `BrowsingContext.Session.Start` | Source/WebDriver/Session.cpp:286-683 | starting a command keeps the promise about windows and frames, and leaves a callback that will find every handle it reads |
| `BrowsingContext.Session.PromptsHandled` | Source/WebDriver/Session.cpp:525-683 | the callback after prompts finds the window and, on the way to a parent, the frame that it reads unchecked, and keeps the promise, closing included |
| `BrowsingContext.Session.MessageAnswered` | Source/WebDriver/Session.cpp:542-862 | the callback of each message keeps the promise whatever the answer, and finds the handles it reads again for a further message; after a wait the request goes on |
| `BrowsingContext.SerialRunsAreFaithful` | Source/WebDriver/Session.cpp:146-1499 | in every serial run with any answers and requests of any number of messages, with a wait before and after, every frame sent was found in the window sent with it since that window was selected, the two handles kept agree likewise, and no missing handle is read |
| `CommandHistory.WindowIsLast` | Source/WebDriver/Session.cpp:146-1499 | in every run, serial or not, the window kept is that of the last create or switch that succeeded, unless a later close, session end or lost window has cleared it |
| `CommandHistory.FrameIsLast` | Source/WebDriver/Session.cpp:146-1499 | in every run, the frame kept is the last one found, unless a later selection of a window, navigation, lost frame or request for the main frame has cleared it |
| `CommandHistory.FailedAnswer` | Source/WebDriver/Session.cpp:286-862 | a failed answer, but to a wait, ends its command and changes nothing else |
| `CommandHistory.FailedWait` | Source/WebDriver/Session.cpp:1484-1499 | so do a wait that fails and prompts that cannot be handled |
| `CommandHistory.WindowGone` | Source/WebDriver/Session.cpp:1484-1499 | a wait that finds the window gone forgets it, and what was to follow is over |
| `CommandHistory.HandledSends` | Source/WebDriver/Session.cpp:286-683 | after prompts a command sends one message about the window kept, with the frame kept exactly if it works in that |
| `CommandHistory.RequestSends` | Source/WebDriver/Session.cpp:286-683 | a request sends its first message at once, the wait with the frame kept |
| `CommandHistory.WaitGoesOn` | Source/WebDriver/WebDriverService.cpp:815-910 | after a wait that has not failed the request goes on with what it waited for |
| `CommandHistory.FurtherSends` | Source/WebDriver/Session.cpp:684-915 | a command sends a message for each it has left, with the handles kept then, and waits at the end if it is to |
| `OverlappingCommands.CrashesExactly` | Source/WebDriver/Session.cpp:525-1499 | without further requests, a missing handle can be read if and only if some command in flight will read one that is gone or that another in flight can take away, or still waits and will read one that is there, or that others can set, before yet another can take it away |
| `OverlappingCommands.OverlapReadsNothing` | Source/WebDriver/Session.cpp:525-540 | from a fresh session, closing a window while another command waits for prompts leads to such a read |
| `OverlappingCommands.WaitsReadNothing` | Source/WebDriver/Session.cpp:1466-1499 | from a fresh session, two requests that wait and then work in the frame lead to such a read |
| `OverlappingCommands.MixesExactly` | Source/WebDriver/Session.cpp:542-683 | without further requests, a frame can be kept beside a window it was not found in if and only if a frame is asked for, or is to be, at once or after a wait, beside a command that can select a different window |
| `OverlappingCommands.MixIsSent` | Source/WebDriver/Session.cpp:1466-1480 | a frame kept beside the wrong window is sent with it by the next request that waits |
| `OverlappingCommands.OverlapMixesWindows` | Source/WebDriver/Session.cpp:542-647 | from a fresh session, asking for a frame while another window is being selected sends a frame with a window it is not in |
| `SessionHost.Host.SendCommandToBackend` | Source/WebDriver/SessionHost.cpp:42-62 | a command gets a number never given out before, and its handler waits under it |
| `SessionHost.Host.InspectorDisconnected` | Source/WebDriver/SessionHost.cpp:33-40 | every handler waiting when the browser goes is run once, whatever commands the handlers send meanwhile through any host; what waits afterwards is exactly what waited at the other hosts and those commands |
| `SessionHost.NothingLostOrRepeated` | Source/WebDriver/SessionHost.cpp:33-92 | in every run over any number of hosts, numbers are never reused, and commands sent are those waiting and those answered, none both, none answered twice |
| `SessionHost.EachStepTold` | Source/WebDriver/SessionHost.cpp:33-92 | in every run, commands sent are those of the sending steps with consecutive numbers, and each response or handler taken answers one command, the one it is for |
| `SessionHost.DisconnectAnswersAll` | Source/WebDriver/SessionHost.cpp:33-40 | once a disconnection is over, all that waited when it began is answered, and what waits at that host was sent since |
| `SendKeys.HeldAfterOneMore` | Source/WebDriver/Session.cpp:1780-1795 | typing one more unit toggles its modifier, left and right codes alike, and touches no other |
| `SendKeys.TypeText` | Source/WebDriver/Session.cpp:1780-1800 | the mask loop gives one interaction for each unit, in order, presses and releases alternating, and leaves the modifiers typed an odd number of times; the texts typed are the units that are no special keys, in order, and the keys those of the others |
| `SendKeys.ElementSendKeys` | Source/WebDriver/Session.cpp:1600-1813 | for every text: the interactions of the units in order, then a release for each modifier still down; no key goes down or up twice, none is down at the end, and their number is the text's length plus the modifiers left down |
| `SendKeys.ModifierCodes` | Source/WebDriver/Session.cpp:1600-1736 | which two codes give each modifier, and no others |
| `SendKeys.PadInOrder` | Source/WebDriver/Session.cpp:1600-1736 | the digits of the number pad come in order, and the keys it has again are the same keys |
| `SendKeys.FunctionKeysInOrder` | Source/WebDriver/Session.cpp:1600-1736 | the function keys come in order |
| `ActionTicks.ActionsByTick` | Source/WebDriver/WebDriverService.cpp:1935-1952 | the tick table is the ragged transpose of the sources |
| `ActionTicks.SourceIsKept` | Source/WebDriver/WebDriverService.cpp:1935-1952 | picked out of the ticks, each source's actions are what they were, in order |
| `ActionTicks.NothingLost` | Source/WebDriver/WebDriverService.cpp:1935-1952 | the ticks together hold each action as often as the sources do |
| `PerformActions.Session.PerformOne` | Source/WebDriver/Session.cpp:2273-2352 | one action updates its own source's state and shows that state, as its kind of source calls for; a pointer move without a coordinate ends the program |
| `PerformActions.ButtonHeld` | Source/WebDriver/Session.cpp:2281-2309 | a button is down exactly when the source's last press, release or cancel pressed it, or there was none and it was down before |
| `PerformActions.SpecialKeyHeld` | Source/WebDriver/Session.cpp:2314-2333 | a special key is held exactly when it was the last to go down and no key has come up since, or none of this happened and it was held before |
| `PerformActions.CharacterHeld` | Source/WebDriver/Session.cpp:2314-2333 | a character is held exactly when it was the last to go down and no key has come up since while no special key was held, or none of this happened and it was held before |
| `PerformActions.EachIsShown` | Source/WebDriver/Session.cpp:2273-2352 | each action of a source is shown once: a move with its own coordinates, origin and duration, and what the source's kind holds after the actions so far |
| `PerformActions.Session.PerformAll` | Source/WebDriver/Session.cpp:2270-2356 | for any ticks the parser accepts, the program ends exactly if some pointer move lacks a coordinate; otherwise what is shown and remembered of each source is what its own actions alone lead to |
| `PerformActions.Session.PerformSources` | Source/WebDriver/Session.cpp:2236-2356 | for sources with different names, dealt out into ticks, the program ends exactly if some pointer move lacks a coordinate; otherwise each source shows and ends with what running it alone would |
| `PerformActions.MoveWithoutPlace` | Source/WebDriver/Session.cpp:2281-2309 | one pointer move with only a y coordinate, which the parser accepts, ends the program |
| `ScriptResult.HandledInPlace` | Source/WebDriver/Session.cpp:1820-1844 | every place reached holds what its own value becomes: a web element exactly for a session node, arrays of the same length, objects with the same keys, all else unchanged |
| `ScriptResult.ElementNamesNode` | Source/WebDriver/Session.cpp:867-890 | where a session node is reached, the result holds one member, under the key of web elements, with the node's own name |
| `ScriptResult.OtherObjectsStay` | Source/WebDriver/Session.cpp:1820-1844 | every other object reached stays one with the same keys |
| `ScriptResult.NothingAdded` | Source/WebDriver/Session.cpp:1820-1844 | every place in the result is a place reached in the value or the name inside a new web element |
| `ScriptResult.HandledIsClean` | Source/WebDriver/Session.cpp:867-880 | no session node is left anywhere in the result |
| `ScriptResult.HandlingIsIdempotent` | Source/WebDriver/Session.cpp:1820-1844 | handling a result again changes nothing |
| `PackageClosure.Downloader.AddPackageAndDependencies` | Tools/CygwinDownloader/cygwin-downloader.py:128-136 | on any graph, cycles and unknown names included, the recursion ends, having collected packages reachable from the name, closed under requirements, and marked exactly those |
| `PackageClosure.Downloader.CollectAll` | Tools/CygwinDownloader/cygwin-downloader.py:138-140 | the names collected are the packages marked, and are the known packages reachable from those marked at first |
| `PackageClosure.Downloader.DownloadAll` | Tools/CygwinDownloader/cygwin-downloader.py:142-146 | each needed package is fetched once, in the order listed, and the total announced is the number fetched |
| `PackageClosure.ClosureIsNeeded` | Tools/CygwinDownloader/cygwin-downloader.py:124-140 | a closed set of reachable packages that holds the wanted ones is the set of needed ones |
| `CommandTokenizer.Tokenizer.Next` | Tools/DumpRenderTree/DumpRenderTreeCommon.cpp:55-79 | a token is the next piece between quotes, and the position moves strictly on while there are tokens; a line that starts with a quote never moves on |
| `InputLine.AllTokens` | Tools/DumpRenderTree/DumpRenderTreeCommon.cpp:35-79 | the tokens are the longest run of non-empty pieces that the line starts with |
| `InputLine.ParseInputLine` | Tools/DumpRenderTree/DumpRenderTreeCommon.cpp:87-114 | parsing reads path and options from the pieces of the line; an option's value is taken even when it is missing |
| `InputLine.AtoiOfToString` | Tools/DumpRenderTree/DumpRenderTreeCommon.cpp:97-100 | every number printed reads back as itself |
| `InputLine.RoundTrip` | Tools/Scripts/webkitpy/port/driver.py:541-565 | for every command the driver can print, the tool parses it back if and only if a timeout other than the default is not left out and a pixel test does not also ask for the console |
| `InputLine.ConsoleTakenForHash` | Tools/DumpRenderTree/DumpRenderTreeCommon.cpp:87-114 | a pixel test that also asks for the console is parsed as one without, whose hash is the console's switch |
| `InputLine.TimeoutIsLost` | Tools/Scripts/webkitpy/port/driver.py:541-565 | a timeout of one that is not printed is parsed as the default |

## Left out

- FillOut: ordering, full prefixes, `maxLength` and printing of the trie are modelled on values, not on the tree of objects; inserting and coalescing are on objects, so update in place and aliasing are not captured for the former.
- MatcherCorrect: coalesced edges have at most eight characters; by `EmitCompiles` that is exactly when the printed code has a macro for each comparison.
- Keyword characters are below 128, as the packed literals need; the big-endian macro for four wide characters is left out, its body naming itself with two arguments.
- Weights are exact hundredths; only their order and sums matter.
- The escape test at the end of a keyword is a predicate on positions, known only to hold on identifier parts.
- Agents: the order in which a broadcast visits workers is open, and the last notification and the unlocking after it are one step, as are locking and adding a report; evaluation of agents' scripts, sleeping and leaving are not modelled beyond registration.
- ModulePath: the Unix separator only; the working directory is a parameter, and Windows and network paths are left out.
- The bodies of the ports' own checks (platform capabilities, validation, matching, version comparison) are function parameters.
- ProcessCapabilities: lists keep capabilities as JSON members; they are parsed in `SessionReply`, after the list rather than in it, and the ports' own parsing of browser options is left out.
- TimeoutsAreTold: seconds are exact, so a timeout loses nothing when it is divided and multiplied by a thousand.
- NewSession: browsers tell whatever name and version they like; launching them, and connections lost during a negotiation, are left out.
- BrowsingContext: handling user prompts is one message and one answer, and the prompts a click handles a second time are one of its further messages; a further message names the frame even where the code names only the window. All commands that ask about the window or its alert with one message are one command.
- InspectorDisconnected: a disconnection is not entered again from a handler, and answers to numbers that are not waiting, against which the code only asserts, do not occur; message texts are left out.
- PerformSources: durations are not narrowed to 32 bits.
- SendKeys: what a browser does with an interaction is left out, as are the focus script and the checks before it.
- Parsing of action sequences, cookies, windows' rectangles, element layout, screenshots and error-code tables: only easy members.
- AtoiOfToString: numbers are unbounded; what reading a number too large for the machine does is left open by the C library and not modelled.
- ParseInputLine: a line that cannot be parsed is the result None instead of the end of the program.
- PackageClosure: the names are in any order with each once; fetching, mirrors and the parsing of setup.ini are left out.
- JSON text, HTTP, D-Bus, processes, the virtual machine, garbage collection and rendering are not part of this model.
