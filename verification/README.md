# go-tartuffe: a verified model

go-tartuffe serves mock HTTP, TCP and SMTP endpoints ("imposters"). An imposter is a list of stubs. A stub has
predicates, which say what requests it answers, and responses, which it gives in turn. This project models five parts
of the server in Dafny and proves what they are for.

* **Comparing JSON** (`JsonTree`, `Permutations`, `Matching`, `DeepEqual`, `Containment`, `Embedding`). Deep equality
  ignores the order of array elements and decides it with a greedy loop that marks what it has taken. `DeepEqual.Same`
  says what equality means, by permutations; the loop is proved to decide exactly that, and `Same` to be an
  equivalence. Containment is proved to decide whether the expected value can be embedded, part by part, in the actual
  one.
* **Paths into JSON** (`Strings`, `Paths`, `Navigation`, `Selectors`, `Existence`). There are two path parsers and two
  walkers. The parsers are proved to agree and to invert rendering; the walkers to agree on where a path leads, and
  every kind of step to select what it says.
* **Cycling through responses** (`Cycling`, `Interleaving`). Sequentially, the two counters of a stub walk through an
  expanded list; concurrently, their atomic operations interleave, and bounds survive every schedule.
* **Recording what a proxy saw** (`Requests`, `ProxyRecord`, `ProxyOnce`, `ProxyPlaces`, `ProxyAlways`, `ProxySession`,
  `ProxyService`, `ProxyReplay`). Matching happens outside the lock and recording inside. Proved over whole runs:
  nothing recorded is forwarded again and everything else is, what stands in front of a proxy stays there, recording
  groups and conserves responses, and exactly when clearing undoes it and a saved recording replays.
* **SMTP** (`Smtp`, `SmtpClient`, `SmtpCommands`, `SmtpServer`, `AddressList`). A session reads back exactly what a
  client sends, and what it gives up is forgotten (dot transparency is section 4.5.2 of RFC 5321; address lists are section 3.4 of RFC 5322).
* **Two repositories** (`Sequences`, `Store`, `Slices`, `Disk`, `StubFiles`, `DiskView`, `DiskOperations`,
  `DiskCrashes`, `Filesystem`, `Repositories`). One keeps imposters in memory, one in files. Both refine one abstract
  step function, and the file operations are followed step by step through crashes.

Text comparison that ignores case is equality under an abstract function `fold`. A Go map is a Dafny map; code that
iterates one takes its keys in any order. Where a lookup that ignores case could find several keys, `Find` stands for
one choice, and the main results ask that no two keys of an object fold alike (`WellKeyed`, which always holds when
keys are case sensitive), so that every choice is the same. Files of the repository hold decoded values: encoding and
decoding are taken to be inverse to each other. Predicates that a proxy generates are the exception: they hold maps
of a kind that JSON does not tell from others, so `Requests.Printed` and `Requests.Reloaded` say what their text keeps
of them.

`dafny verify dfyconfig.toml` checks the whole project.

## Model

| member | source | states |
|---|---|---|
| JsonTree.ExactKeysAreWellKeyed | internal/imposter/matcher.go:526-538 | With case-sensitive keys, no tree has colliding keys, so the results that ask for distinct keys hold of all trees |
| JsonTree.Find | internal/imposter/matcher.go:994-1035 | A key is found exactly when some key of the object equals it, up to folding unless keys are case sensitive, and what is found is the value of such a key |
| DeepEqual.DeepEqualJson | internal/imposter/matcher.go:512-598 | On trees with distinct keys the comparison answers true exactly for trees with equal key sets, pairwise equal values, and arrays equal up to a permutation, at every depth |
| DeepEqual.MatchFields | internal/imposter/matcher.go:522-553 | The loop over the expected keys, in any order, decides whether both objects have the same keys with equal values |
| DeepEqual.LookUp | internal/imposter/matcher.go:531-547 | The exact key wins; else, unless keys are case sensitive, some key that folds alike is found if there is one |
| DeepEqual.MatchElements | internal/imposter/matcher.go:556-583 | The greedy loop with its marks succeeds exactly when the two arrays hold equal elements equally often: taking the first fit never spoils a full matching |
| DeepEqual.TakeFirst | internal/imposter/matcher.go:571-578 | Marks the first unmarked equal element and no other, or reports that no unmarked element is equal |
| DeepEqual.SameIffCanon | internal/imposter/matcher.go:512-598 | Equality up to permutations at every depth is equality of canonical forms, in which arrays are multisets |
| DeepEqual.SameIsEquivalence | internal/imposter/matcher.go:556-583 | Deep equality is reflexive, symmetric and transitive |
| DeepEqual.SameOnFoldedKeys | internal/imposter/matcher.go:531-547 | Comparing with folded keys is comparing the trees with all keys folded, with exact keys |
| DeepEqual.SameTexts | internal/imposter/matcher.go:526-598 | Strings and keys are compared as they are or folded, as each of the two options says |
| DeepEqual.SameIsEqual | internal/imposter/matcher.go:512-598 | Case sensitive and without arrays, deep equality is equality of trees |
| Matching.PairedIsStuck | internal/imposter/matcher.go:569-583 | If the next expected element finds no unmarked partner after the earlier ones took theirs, no full matching exists at all |
| Containment.SameImpliesContains | internal/imposter/matcher.go:1191-1292 | What is deeply equal is contained |
| Containment.ContainmentIsMonotone | internal/imposter/matcher.go:1191-1292 | Containment survives adding object keys to the actual value and removing object keys from the expected one, at any depth |
| Containment.MonotoneExactlyWhen | internal/imposter/matcher.go:1213-1233 | Of all trees this law holds if and only if no two different keys compare equal |
| Containment.AddedKeyHidesValue | internal/imposter/matcher.go:1213-1225 | A key that is added hides the value of any other key that folds like it |
| Embedding.JsonContains | internal/imposter/matcher.go:1191-1292 | The recursive comparison with its loops answers true exactly when the expected value can be embedded in the actual one: equal leaves, a value for each expected key, an element for a value expected of an array, and for two arrays equal lengths and an element for each expected one |
| Embedding.ContainsIffEmbeds | internal/imposter/matcher.go:1191-1292 | The specification `Contains` holds exactly when an embedding with explicit witnesses exists |
| Embedding.SameLength | internal/imposter/matcher.go:1237-1245 | An array is contained in an array of the same length only |
| Embedding.ContainsIffGrown | internal/imposter/matcher.go:1191-1292 | Without arrays and on distinct keys, containment is deep equality with a part of the actual value: what is left when keys are taken away at any depth |
| Paths.SplitJsonPath | internal/imposter/matcher.go:875-911 | The scanning loop computes the specification `Split` of the first parser |
| Paths.SplitInvertsRender | internal/imposter/matcher.go:875-911 | Splitting the rendering of any list of names and bracket parts gives the list back |
| Paths.ParsePathSegment | internal/imposter/selectors.go:183-228 | The second parser computes the specification `ParseSegment`: the next segment and the rest |
| Paths.FindClosing | internal/imposter/selectors.go:188-204 | The scan with a depth counter finds the bracket that closes the first one |
| Paths.ParseRendered | internal/imposter/selectors.go:183-228 | The first segment of a rendered path is its first part, and what is left is the rendering of the other parts |
| Paths.SegmentsInvertRender | internal/imposter/selectors.go:183-228 | Taking segments until none is left gives the parts back, and agrees with the other parser |
| Paths.IdleDots | internal/imposter/matcher.go:882-886 | Dots at the start, at the end or next to each other separate nothing |
| Paths.UnclosedBracketSeparates | internal/imposter/matcher.go:887-901 | For the first parser, a bracket that is never closed separates as a dot does |
| Paths.ParseUnclosed | internal/imposter/selectors.go:189-204 | For the second parser, such a bracket takes the rest of the path |
| Paths.ParseNested | internal/imposter/selectors.go:189-204 | For the second parser, brackets inside brackets belong to the segment |
| Navigation.AcceptedIffReached | internal/imposter/matcher.go:914-980 | The existence check accepts a wildcard-free path exactly when it leads to a value, negative indices included |
| Navigation.ExtractionShowsReached | internal/imposter/selectors.go:75-180 | On a path the check accepts, extraction by the other parser and walker shows the very value reached |
| Selectors.NumberLeads | internal/imposter/selectors.go:151-162 | For both walkers, the decimal text of n in brackets leads to element n, for negative n to element length + n, and nowhere beyond either end |
| Selectors.NumberTextsExactly | internal/imposter/matcher.go:942-946 | A text is taken for a number exactly when it is its decimal text, after an optional sign and leading zeros |
| Selectors.WildcardAccepts | internal/imposter/matcher.go:931-939 | The existence check accepts a wildcard exactly when some element accepts the rest of the path |
| Selectors.WildcardShows | internal/imposter/selectors.go:136-149 | Extraction under a wildcard joins what the elements show for the rest of the path, in order |
| Selectors.JoinKeepsResults | internal/imposter/selectors.go:137-148 | Joined results without commas can be told apart again, but for those that are empty |
| Selectors.StarShows | internal/imposter/selectors.go:116-128 | A star joins what the values of an object show, in the order in which its keys are visited |
| Selectors.QuotedKeyLeads | internal/imposter/selectors.go:99-113 | A quoted key in brackets leads where the bare key leads, unless a key is spelled with the brackets |
| Selectors.FieldOverArray | internal/imposter/selectors.go:166-178 | A field name applied to an array is asked of each element, and run together with the name after it, as the dot between them is lost |
| Selectors.ArrayShowsElementsExactlyWhen | internal/imposter/selectors.go:166-178 | So with exact keys an array shows at a path of names what its elements show there, for all data, if and only if nothing follows the first name |
| Existence.NestedIffFlat | internal/imposter/matcher.go:1038-1080 | The nested form holds exactly when every flag in it says whether its own path exists, missing and null children included, if no flag lies under a key in brackets |
| Existence.FlagExpected | internal/imposter/matcher.go:1038-1052 | A specification that does not expect everything to be missing names a path that it expects to exist |
| Existence.ReadingsAgreeExactlyWhen | internal/imposter/matcher.go:914-1080 | With case-sensitive keys that condition is exact: the two readings agree on all data if and only if no flag lies under a key in brackets, which the nested form reads as a key and a path as an array index |
| Existence.FlagUnderBracketSeparates | internal/imposter/matcher.go:923-924 | For any other specification there is a tree on which the readings differ, built from the flags themselves |
| Cycling.Stub.NextResponse | internal/models/stub.go:332-354 | Call number k gives entry k, modulo the length, of the list in which every response stands as often as it repeats |
| Cycling.Drain | internal/models/stub.go:332-354 | From fresh counters, a whole run of calls gives that list over and over |
| Cycling.OrderCounts | internal/models/stub.go:342-345 | One round gives each response exactly as often as its `repeat` says, once if that is below one |
| Cycling.NextPosition | internal/models/stub.go:347-351 | However a call moves the two counters, the number of calls they stand for grows by one |
| Interleaving.InvariantHolds | internal/models/stub.go:337-351 | For every schedule of atomic steps: adds not yet visible in the count are at most R a store, plus the pending calls that added before the last store |
| Interleaving.AlwaysInRange | internal/models/stub.go:337-351 | Under every schedule the chosen index is in range and the count is at most R - 1 plus the calls between their add and their store |
| Interleaving.AdvancesWithCalls | internal/models/stub.go:337-351 | When no call is in progress: index <= calls <= R * index + (R - 1) |
| Interleaving.UndisturbedCall | internal/models/stub.go:332-354 | A call whose steps no other interrupts moves the counters as the sequential method does |
| Interleaving.OneAtATimeKeepsOrder | internal/models/stub.go:332-354 | In every schedule in which no call starts while another is in progress, call i gets entry i of the expanded list, modulo its length |
| Interleaving.TogetherKeepsOrderExactlyWhen | internal/models/stub.go:337-338 | Calls that all start before any of them counts get the first response, whatever follows; that is what the list has for them if and only if there is no other response or no more calls than the first repeats |
| Requests.GeneratePredicates | internal/imposter/proxy.go:377-398 | The loop over the generators collects the predicates of those that keep anything |
| Requests.GeneratePredicate | internal/imposter/proxy.go:401-461 | One generator keeps the flagged fields and flagged keys that the request has, or nothing |
| Requests.GeneratedMatchesOwn | internal/imposter/proxy.go:332-374 | The predicates generated from a request match that request, whatever the generators |
| Requests.GeneratedTellsApart | internal/imposter/proxy.go:332-479 | They match exactly the requests that agree in what the generators keep: fields flagged true, with as many keys if they are maps, and flagged keys that the recorded request has; nothing else is asked, if no keys of the other request fold alike |
| Requests.DefaultTellsApart | internal/imposter/proxy.go:361-370 | Without generators they match exactly the requests with the same method and path, up to folding |
| Requests.FieldsByName | internal/imposter/proxy.go:401-479 | A flagged field compares the part of the request that it names, in any case of letters; a form is never compared |
| Requests.LowerIgnoresCase | internal/imposter/matcher.go:741 | Field names that differ in the case of letters only are the same name |
| Requests.ReloadedMatches | internal/imposter/matcher.go:1112-1182 | Predicates that are written as JSON and read again match all that they matched before, and more: a whole map comes back as some keys of a map, without the test of their number |
| ProxyRecord.FirstMatch | internal/imposter/matcher.go:79-102 | The first stub that matches, and -1 exactly when none does |
| ProxyRecord.SameFrom | internal/imposter/manager.go:866-930 | The first stub but the proxying one whose predicates have the same JSON text, and -1 exactly when there is none |
| ProxyRecord.Server.RecordProxyStub | internal/imposter/manager.go:884-941 | Recording inserts before the proxying stub, or groups onto the first stub whose predicates print alike, or appends, by mode |
| ProxyRecord.Server.ClearProxyStubs | internal/repository/memory.go:188-195 | Clearing keeps exactly the stubs that no proxy generated, in order |
| ProxyOnce.InvariantHolds | internal/imposter/manager.go:884-910 | For every interleaving of matching and recording, below a pending position and below a recorded answer only recorded stubs match |
| ProxyOnce.RecordedIsNotForwarded | internal/imposter/manager.go:884-910 | Once a response to a request was recorded, even at a stale position, the request is answered by a recorded stub and never forwarded again |
| ProxyOnce.ForwardedAtMostOnce | internal/imposter/manager.go:884-910 | Requests served one after the other are forwarded at most once each |
| ProxyOnce.ClearingRestores | internal/repository/memory.go:188-195 | After any interleaved run, dropping the generated stubs gives the original list back, in order |
| ProxyPlaces.FrontStays | internal/imposter/manager.go:899-906 | For every schedule, stale positions included, the stubs in front of the first proxy stay where they are |
| ProxyPlaces.FrontKeepsAnswering | internal/imposter/manager.go:899-906 | So a request that one of them answers keeps that answer for ever |
| ProxyPlaces.RecordedBeforeProxy | internal/imposter/manager.go:899-906 | Served one at a time, a proxied request leaves its stub directly in front of the stub that proxied, or of all when that was the default, and nothing else changes |
| ProxyPlaces.TransparentRecordsNothing | internal/imposter/manager.go:884-941 | Proxies that are not to record leave the stubs alone for every schedule |
| ProxyPlaces.PlainProxyRun | internal/imposter/manager.go:884-910 | A plain proxy without generators forwards exactly the requests whose method and path had not come up before, and its stubs are a record for each of these, in order, and the proxy |
| ProxyPlaces.PlainProxyAnswers | internal/imposter/manager.go:884-910 | Any later request with a method and path that came up gets what was recorded when they first did |
| ProxyAlways.RecordingGroups | internal/imposter/manager.go:911-937 | Recording a log is a stable group-by: the original stubs, then a stub for each distinct JSON text of predicates by first appearance, with the predicates that came first and all responses in order of arrival |
| ProxyAlways.GroupOne | internal/imposter/manager.go:911-937 | Recording one more response to a grouped list gives the grouping of the longer log |
| ProxyAlways.RecordingConserves | internal/imposter/manager.go:911-937 | Whatever the stubs, every recorded response is stored exactly once and none is lost |
| ProxyAlways.ClearingRestores | internal/repository/memory.go:188-195 | Clearing gives the original stubs back exactly when no response was grouped onto one of them, which is when none of them prints like a generated one |
| ProxySession.RemoveProxies | internal/api/handlers/imposters.go:369-387 | Saving without proxies drops proxy responses, and stubs that had no other; what is read back from the JSON text is `Saved` |
| ProxySession.NonProxyIs | internal/api/handlers/imposters.go:371-378 | A save drops proxy responses and keeps every other one, of whatever kind, as often as it was there |
| ProxySession.SavedKeepsAnswers | internal/api/handlers/imposters.go:369-387 | Stubs without proxy responses all come back, in order, with their responses |
| ProxySession.RecordingRun | internal/imposter/manager.go:911-937 | While recording, every call gets the proxied value, and the stubs are the original ones followed by the groups of the log |
| ProxyService.ServedInOrder | internal/models/stub.go:332-354 | Requests that a stub with fixed responses is the first to match get these in their expanded order, over and over, through the imposter as a whole |
| ProxyService.OnceRecords | internal/imposter/manager.go:899-906 | A stub recorded in front of a proxy starts with fresh counters, and every other stub keeps its own |
| ProxyService.AlwaysRecords | internal/imposter/manager.go:911-937 | A response grouped or appended leaves every other stub its counters |
| ProxyService.OnceAnswersAgain | internal/imposter/manager.go:884-910 | The recorded value answers from then on all requests that the recorded predicates match and no earlier stub does |
| ProxyReplay.SavedRecording | internal/api/handlers/imposters.go:369-387 | A save brings every group back whole, with its JSON text for predicates, and of the original stubs only what is not a proxy |
| ProxyReplay.RecordThenReplay | internal/imposter/manager.go:911-937 | Record, save without proxies, load with fresh counters: the same calls, any number of times over, get the very values they got while recording, if no key, as it comes back from the save, matches a call before the key of the call itself has come up |
| ProxyReplay.ReplayExactlyWhen | internal/imposter/manager.go:911-937 | That condition is exact: when all calls got different values, the replay is right if and only if it holds |
| ProxyReplay.QueryMatches | internal/imposter/matcher.go:1112-1182 | A generated whole query matches only queries with as many keys while in memory, and all that have its keys once saved |
| ProxyReplay.LargerQueryReplaysWrongly | cmd/tartuffe/main.go:239-283 | So the condition cannot be checked on the predicates in memory: two calls that these tell apart replay wrongly whenever the query of the second takes in that of the first |
| ProxyReplay.ReplayPass | internal/models/stub.go:332-354 | While replaying, the counter of every group stands at the number of calls of its key replayed so far |
| SmtpServer.Imposter.HandleConnection | internal/imposter/smtp_server.go:143-288 | A connection records and counts exactly the messages that its lines complete, in order |
| SmtpServer.Imposter.HandleCommand | internal/imposter/smtp_server.go:220-286 | The command switch is one step of the session automaton |
| SmtpServer.Imposter.Process | internal/imposter/smtp_server.go:183-198 | A message is counted always and recorded if asked for |
| SmtpServer.ConnectionsAreSeparate | internal/imposter/smtp_server.go:155-286 | For every interleaving of connections, each sees its own session only, and its part of the record is what it would be alone |
| SmtpServer.RecordIsSafe | internal/imposter/smtp_server.go:256-262 | Every recorded message has a sender and at least one recipient, none of them empty |
| Smtp.SessionsAreSafe | internal/imposter/smtp_server.go:155-286 | After any lines: the buffer is empty outside DATA mode, DATA mode has an envelope, and no recipient is empty |
| Smtp.BufferIsThisMessage | internal/imposter/smtp_server.go:210-217 | In DATA mode the buffer holds exactly the unescaped lines since the DATA command, so nothing crosses messages |
| Smtp.MessageIsItsData | internal/imposter/smtp_server.go:177-209 | A message is completed exactly by the final dot, carries exactly its own data, and leaves a fresh session |
| SmtpCommands.ResetForgets | internal/imposter/smtp_server.go:264-268 | After RSET the session is fresh: what was delivered is what the lines before and the lines after deliver on their own |
| SmtpCommands.QuitEnds | internal/imposter/smtp_server.go:273-276 | Nothing sent after QUIT is delivered |
| SmtpCommands.NeutralLine | internal/imposter/smtp_server.go:224-286 | Any line outside DATA mode that starts with no other command might as well not have been sent |
| SmtpCommands.CommandIgnoresCase | internal/imposter/smtp_server.go:220-224 | A command is its first four letters, in any case |
| SmtpCommands.EnvelopeIs | internal/imposter/smtp_server.go:237-250 | The envelope is the address of the last MAIL and the non-empty addresses of all RCPT, in order |
| SmtpCommands.Transaction | internal/imposter/smtp_server.go:237-262 | A message goes to that envelope with exactly its data; without a sender or recipients DATA changes nothing |
| SmtpCommands.ColonAddress | internal/imposter/smtp_server.go:297-313 | Without angle brackets the address is what follows the first colon, trimmed |
| SmtpCommands.SpacedAddress | internal/imposter/smtp_server.go:297-313 | Spaces and tabs around it do not belong to it |
| SmtpCommands.UnclosedAddress | internal/imposter/smtp_server.go:297-313 | An angle bracket that is never closed counts as any other character |
| SmtpCommands.NoAddress | internal/imposter/smtp_server.go:297-313 | Without a bracket and a colon the address is empty |
| SmtpCommands.SessionWithAbandonedEnvelopes | internal/imposter/smtp_server.go:143-288 | From the bytes of a session in which envelopes are given up by RSET between the letters, exactly the letters are delivered |
| SmtpCommands.UnfinishedLineIsLost | internal/imposter/smtp_server.go:163-172 | A last line without a line feed is not read, and the lines before it are |
| SmtpClient.BracketedAddress | internal/imposter/smtp_server.go:297-313 | An address in angle brackets is read back if and only if it contains no closing bracket |
| SmtpClient.SentLetter | internal/imposter/smtp_server.go:155-286 | MAIL, RCPT for each recipient, DATA, stuffed lines and the dot give exactly that message |
| SmtpClient.SentLetters | internal/imposter/smtp_server.go:155-286 | Any list of letters is processed as exactly these messages, in order |
| SmtpClient.ReadInvertsWire | internal/imposter/smtp_server.go:163-172 | Lines without a line feed or a trailing carriage return are read back as they were sent |
| SmtpClient.SessionRoundTrip | internal/imposter/smtp_server.go:143-288 | The same from the bytes of the stream |
| AddressList.SplitAddresses | internal/imposter/smtp_server.go:517-553 | The scanning loop with its two flags computes the specification `Split` |
| AddressList.SplitInvertsJoin | internal/imposter/smtp_server.go:517-553 | Trimmed, non-empty addresses that protect their commas are read back from their list |
| AddressList.NamedIsClosed | internal/imposter/smtp_server.go:517-553 | A quoted name and an address in angle brackets protect all their commas, and stand on their own if and only if the address has an even number of quotes |
| AddressList.SplitHeader | internal/imposter/smtp_server.go:517-553 | Any list of bare addresses and of quoted names with addresses in angle brackets is split into these, whatever commas and brackets the names contain |
| AddressList.LeadingCommaIsIdle | internal/imposter/smtp_server.go:534-543 | A comma with nothing before it adds no address |
| Store.InMemory.Add | internal/repository/memory.go:23-33 | One step of the abstract store: the imposter is kept under its port, or the port is taken |
| Store.InMemory.Get | internal/repository/memory.go:36-46 | Answers as the abstract store |
| Store.InMemory.Delete | internal/repository/memory.go:71-82 | One step of the abstract store |
| Store.InMemory.UpdateStubs | internal/repository/memory.go:99-110 | One step of the abstract store; no other imposter changes |
| Store.InMemory.AddStub | internal/repository/memory.go:113-131 | One step of the abstract store: insertion at a valid index, else at the end |
| Store.InMemory.DeleteStub | internal/repository/memory.go:134-149 | One step of the abstract store, or an invalid index and no change |
| Store.AddThenDelete | internal/repository/memory.go:113-149 | Deleting where a stub was added gives the store back |
| Store.BlockedForGood | internal/repository/filesystem.go:140-143 | No sequence of operations frees a port that is taken by a directory without an imposter: adding is a conflict, all else finds nothing |
| Store.ReplaceChangesOne | internal/api/handlers/stubs.go:153-155 | Deleting and adding at the same valid index changes just that place, be it the last |
| Store.OtherPortsStay | internal/repository/memory.go:10-149 | No sequence of operations touches a port that none of them is about |
| Store.AddReadDelete | internal/repository/memory.go:23-82 | What was added is read and not replaced by adding again, replaced stubs are what deletion returns, and after it the store is as before the adding |
| Store.AddedInOrder | internal/repository/memory.go:113-131 | Stubs added without a valid index stand behind the others in the order of adding |
| Store.DeletedInOrder | internal/repository/memory.go:134-149 | Deleting at the front again and again removes a prefix and lets the others close up |
| Slices.Widen | internal/repository/filesystem.go:489 | Appending the tail of a slice to its own overlapping head moves the tail up one place in the same array, or copies it when there is no room |
| Slices.Insert | internal/repository/filesystem.go:488-491 | Widening in place and overwriting the doubled place inserts, and loses nothing |
| Slices.Narrow | internal/repository/filesystem.go:519 | Appending the tail over the deleted place moves it down one place |
| Disk.AtomicWriteWrites | internal/repository/filesystem.go:88-107 | Writing under a temporary name and renaming amounts to the file appearing whole |
| Disk.SameVisibleShelves | internal/repository/filesystem.go:233-296 | Temporary files and stub directories that no header names cannot be seen by any reader, even of a broken imposter |
| Disk.CutsAreEnough | internal/repository/filesystem.go:88-107 | If files are written under temporary names only, a file left cut off is seen by no reader, so being safe between steps is being safe in the middle of them too |
| Disk.OneCommit | internal/repository/filesystem.go:88-107 | One renaming between steps that no reader sees makes the whole safe against a crash at any step, and in the middle of writing a file |
| StubFiles.StubSaved | internal/repository/filesystem.go:175-222 | What was saved is what is loaded, and the order saved with it is the one the counters of the stub walk through |
| StubFiles.StubsSaved | internal/repository/filesystem.go:155-168 | The same for several stubs in directories of different names |
| DiskOperations.AddLoads | internal/repository/filesystem.go:134-172 | After adding, exactly the imposter added is loaded from its port, and other ports are as before |
| DiskOperations.AddStubShelves | internal/repository/filesystem.go:465-494 | Adding a stub inserts it among what there is of the imposter, be it broken or whole, and changes nothing else |
| DiskOperations.DeleteStubShelves | internal/repository/filesystem.go:497-530 | Deleting a stub removes it from what there is of the imposter and changes nothing else |
| DiskOperations.UpdateLoads | internal/repository/filesystem.go:434-462 | Replacing all stubs makes exactly the new ones load, whatever was left of the old |
| DiskOperations.UpdateCleans | internal/repository/filesystem.go:448-450 | Replacing all stubs leaves no file of the old ones, nor of any that a crash had left there |
| DiskOperations.DeleteLoads | internal/repository/filesystem.go:378-394 | Deleting an imposter makes its port absent and changes no other |
| DiskView.InsertedLoads | internal/repository/filesystem.go:233-269 | A whole imposter to which a stub is added is whole, with the stub in its place |
| DiskCrashes.AddIsCrashSafe | internal/repository/filesystem.go:134-172 | Cut short at any step or in the middle of one, every port reads as before or as after |
| DiskCrashes.AddStubIsCrashSafe | internal/repository/filesystem.go:465-494 | Cut short at any step or in the middle of one, readers find the imposter without the stub or with it |
| DiskCrashes.DeleteStubIsCrashSafe | internal/repository/filesystem.go:497-530 | Cut short at any step or in the middle of one, readers find the imposter with the stub or without it |
| DiskCrashes.NothingBreaks | internal/repository/filesystem.go:233-269 | A crash in a safe operation leaves every port absent or with a header all of whose directories load |
| DiskCrashes.AddRecovers | internal/repository/filesystem.go:134-172 | Wherever adding an imposter is cut short, a new process can start on the disk that is left |
| DiskCrashes.AddStubRecovers | internal/repository/filesystem.go:465-494 | Wherever adding a stub is cut short, a new process can start on the disk that is left |
| DiskCrashes.DeleteStubRecovers | internal/repository/filesystem.go:497-530 | Wherever deleting a stub is cut short, a new process can start on the disk that is left |
| DiskCrashes.CutShortAddBlocks | internal/repository/filesystem.go:140-148 | Cut short after its first step, adding leaves a port that reads as absent and still counts as taken |
| DiskCrashes.UpdateIsCrashSafeWhen | internal/repository/filesystem.go:448-461 | Replacing all stubs is safe against crashes if and only if the imposter was not a whole one with stubs: the old files go while the header still names them |
| DiskCrashes.DeleteIsCrashSafeWhen | internal/repository/filesystem.go:378-394 | Deleting an imposter is safe against crashes if and only if its header goes before any file that the header needs |
| Filesystem.Repository.FilenameFor | internal/repository/filesystem.go:52-56 | A name is the time, the process and a counter that grows with every name |
| Filesystem.Repository.WriteJSON | internal/repository/filesystem.go:88-107 | Takes exactly the steps of an atomic write |
| Filesystem.Repository.SaveStub | internal/repository/filesystem.go:175-222 | Takes exactly the steps of saving a stub, in a directory and files of new names, responses before the order file |
| Filesystem.Repository.AppendRepeats | internal/repository/filesystem.go:202-209 | A response enters the saved order as often as its effective repeat |
| Filesystem.Repository.LoadStub | internal/repository/filesystem.go:272-296 | Reads the stub, or fails exactly when a file of it is missing or unreadable |
| Filesystem.Repository.GetImposter | internal/repository/filesystem.go:233-269 | Reads absent, broken or whole exactly as `Load` describes the disk |
| Filesystem.Repository.Get | internal/repository/filesystem.go:225-230 | Answers as the abstract store, and fails on a broken imposter |
| Filesystem.Repository.Add | internal/repository/filesystem.go:134-172 | One step of the abstract store, safe against a crash at any step and recoverable from it; a port with a directory is a conflict, whatever a crash has left in it |
| Filesystem.Repository.AddStub | internal/repository/filesystem.go:465-494 | One step of the abstract store, safe against a crash at any step and recoverable from it; on a broken imposter, insertion among its remains |
| Filesystem.Repository.DeleteStub | internal/repository/filesystem.go:497-530 | One step of the abstract store, safe against a crash at any step and recoverable from it; on a broken imposter, removal from its remains; no file of the stub is left |
| Filesystem.Repository.UpdateStubs | internal/repository/filesystem.go:434-462 | One step of the abstract store; a broken imposter is whole again, and no stale stub file is left |
| Filesystem.Repository.Delete | internal/repository/filesystem.go:378-394 | One step of the abstract store that leaves no file of the imposter; a broken imposter cannot be deleted |
| Repositories.Repo.Perform | internal/repository/memory.go:10-149 | Either repository refines the abstract step; in files, ports on which a crash left a directory only are blocked |
| Repositories.Repo.ReplaceStub | internal/api/handlers/stubs.go:116-161 | The handler changes exactly the place of a valid index, and nothing for an unknown port or an invalid index |
| Repositories.Lockstep | internal/repository/filesystem.go:134-530 | Any sequence of operations leaves both repositories with the same imposters and gives the same outcomes, if no crash has left a port broken or blocked |

## Left out

What a result above does not say:

- DeepEqual.DeepEqualJson: promises nothing about objects with two keys that fold alike; there the answer can depend on the order in which the map is iterated.
- Existence.ReadingsAgreeExactlyWhen: asks for case-sensitive keys; of other keys only the direction of `NestedIffFlat` is stated.
- Existence.NestedIffFlat: with keys that fold alike it speaks of one fixed choice of `Find` for both readings.
- Navigation.ExtractionShowsReached: asks for a path without wildcards; what these show, and what a field name applied to an array shows, `Selectors` says step by step. The text form of a value is abstract.
- Selectors.ArrayShowsElementsExactlyWhen: the source rejoins segment and rest without the dot (internal/imposter/selectors.go:168). That the law fails is stated for exact keys and paths of names; `Selectors.FieldOverArray` says for all paths what is shown instead.
- Requests.GeneratedTellsApart: asks that no two keys of one map of the other request fold alike; otherwise the answer can depend on the order in which the map is iterated.
- Interleaving.AdvancesWithCalls: the response list is fixed during the run, and the counters are unbounded where the source has 64 bits.
- Requests.GeneratedMatchesOwn: regular-expression and injected generators are not modelled. A regular expression keeps only the part it extracted, so its predicate need not match the request.
- ProxyRecord.SameFrom: predicates of kinds that are not modelled are known by a number, and two of them print alike if they have the same. Texts are taken to survive JSON, which holds of valid UTF-8.
- ProxyOnce.RecordedIsNotForwarded: predicates are pure; which response of a stub's cycle is chosen is arbitrary, so nothing depends on the counters.
- ProxyReplay.RecordThenReplay: one proxy answers all recorded calls, no other original stub matches them, and the original stubs were read from JSON, as all are. Behaviours of recorded responses (waiting, decorating) are not modelled, and an imposter without a matching stub answers with an empty value.
- Filesystem.Repository.Delete: takes no particular order of removal; what a crash leaves depends on that order, see `DiskCrashes.DeleteIsCrashSafeWhen`.
- Repositories.Lockstep: on a disk with ports that a crash has left blocked, `Repositories.Repo.PerformAll` says what happens instead; on broken imposters, the contracts of `Filesystem.Repository` do.
- Filesystem.Repository.FilenameFor: the clock may stand still or jump, but not before the start of the process, and the counter is unbounded where the source has 64 bits.
- Filesystem.Repository.AddStub: every call to the operating system succeeds; a full disk and missing permissions are not modelled, nor directories other than that of an imposter.

What is not modelled:

- The `except` pattern of predicates is taken to be empty.
- The other predicate kinds (`contains`, `startsWith`, `matches`, `not`, `or`, `and`, `inject`), XPath and dotted field names of a request: matching by them is an abstract function.
- `path == ""` in the existence check, which asks only for a body.
- The recursive descent of a selector that starts with two dots (internal/imposter/selectors.go:240-300).
- Numbers too large for a machine integer in a path index: the source fails to parse them, the model finds them out of range, and both end the path there.
- SMTP replies, deadlines, and the splitting of a message into headers and parts. Commands are recognised in ASCII, and space is ASCII space and the two single-byte Unicode spaces.
- References to imposters and slices shared between callers and the in-memory repository: `Get` answers with a value.
- The bound that goes with an invalid index: the in-memory repository reports the last valid index, the filesystem one the number of stubs.
- Calls of a repository that overlap in time: every operation holds the lock of its repository to the end.
- Requests recorded by a repository, `All`, `DeleteAll`, and the clearing operations of the filesystem repository, one of which rereads the header as if it were a whole imposter (internal/repository/filesystem.go:554-577).
- Sockets, TLS, HTTP plumbing, metrics, web pages, the command line, scripts, gRPC, TCP and plugin callbacks.
