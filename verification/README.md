# Libiqxmlrpc in Dafny

A model of the parts of libiqxmlrpc where most can go wrong, and proofs about it:

* **The XML-RPC codec.** The printer, the pull parser with its one-token push-back and its synthesised end tags, and the
  tower of builders that share one cursor and each count levels of their own (`Xml`, `Printer`, `Builders`, `RoundTrip`,
  `Equality`, `Accounting`, `Nesting`, `Exactness`, `Messages`, `Boundaries`, `Totality` on values; `XmlWriter` and
  `XmlParser` as objects). What documents look like, tag by tag, and what is made of those that another library has written,
  stands in `Documents`, `Elements` and `Refusals`. The boundary to libxml2 is the sequence of nodes that its reader reports.
* **The server.** Reactor thread, pool threads, owner of the pool and stopping threads as one step system (`Server`), with
  invariants over all of its runs (`ServerHistory`, `ServerPool`, `ServerReactor`, `ServerBooks`), what its threads can bring
  about from wherever a run has come to (`ServerProgress`, `ServerService`), the catch clauses of both executors
  (`Execution`), and the reactor's two tables (`ReactorTable`).
* **HTTP.** Headers, the incremental packet reader, sessions over a connection that is kept alive, X- headers and basic
  authentication (`HttpText`, `HttpHeader`, `RequestHeaderModel`, `HttpReader`, `HttpSession`, `HttpAmbiguity`,
  `HttpConnection`, `HttpContinue`, `HttpOptions`), and requests as any other client may write them (`HttpFreeForm`).
* **Scalars.** Base64 (`Base64`, `BinaryDataModel`), ISO 8601 time (`DateTime`), decimal integers (`Text`), what their texts mean
  character by character (`Notation`), `std::map` as an ordered sequence of entries (`OrderedMap`).
* **The heap.** Values as objects that own other objects: copying, assignment, insertion (`ValueHeap`).

Code that works on values is given as functions and lemmas; classes of the library whose methods change their fields are
classes here, and their methods are proved against those functions. Exceptions are results. `dafny verify dfyconfig.toml`
verifies everything; so does `dafny verify --resource-limit 2000000 --verification-time-limit 0 dfyconfig.toml`.

Some results say where the code does not do what one would expect of it:

* A nil is taken without the end tag that its empty element stands for. Every builder around it is then one level up too
  early, and an array, a struct or a request may end before its last part. How many nils are too many is proved exactly, for
  values of any depth (`Exactness.ValueComesBack`) and for the parameters of a request (`Messages.RequestRoundTrip`).
* A string of white space comes back empty, and a member name of white space is refused (both in the `RoundTrip` lemmas).
  The end tag of an empty member name is taken for its text (`Boundaries.EmptyNameTakesEndTag`).
* Unregistering a handler for one kind of event unregisters it for both (`ReactorTable.UnregisterOneLosesBoth`);
  when that is what was asked for is proved exactly (`ReactorTable.UnregisterMaskExactly`). The server
  depends on it: a connection whose request is being executed is not polled at all (`ServerReactor.ConnectionsAreNotShared`).
* The destructor of the pool may wait for ever, for a thread that waits itself or for a lock. When it can is proved exactly
  (`ServerPool.BroadcastReaches`, `ServerPool.LockOrder`).
* The end of an HTTP header may depend on how the stream is cut. When it does is proved exactly (`HttpSession.WhenSteady`);
  the same bytes are then a request or none (`HttpAmbiguity.OneStreamTwoResults`).
* Of the requests of a connection that is kept alive exactly the first that asks to be told to continue, and waits for it, is
  told (`HttpContinue.OnlyTheFirst`); a second one is left waiting (`HttpContinue.TheSecondIsNotTold`).
* Events that were set by hand are dispatched again and again for input on a descriptor that is registered for nothing
  (`ReactorTable.NothingFiresAgain`).
* A callback may unregister a handler whose turn in the batch is still to come, which is then not found. When all are found is
  proved exactly (`ReactorTable.DispatchFinds`).
* An executor whose answer cannot be sent is deleted again with the next attempt to answer (`Execution.DeletedOnce`).
* The same exception is answered differently by the two executors (`Execution.ExecutorsAgree`).
* A user name with a colon does not survive basic authentication (`HttpOptions.AuthInfoRoundTrip`).

## Model

| member | source | states |
|---|---|---|
| `RoundTrip.ValueParses` | libiqxmlrpc/value_parser.cc:160-262 | for a value of any depth in which no container is too full of nils and no member name is empty, and any tokens behind it: what a sub-build reads is the value with blank strings emptied, or it throws if a member name is blank; a sub-build that is not flat leaves the closing value tag, a flat one takes it with a scalar only; in front of it stay exactly as many end tags as the value's nils leak |
| `RoundTrip.StructParses` | libiqxmlrpc/value_parser.cc:43-76 | a struct builder reads all members in order and stops right behind its own end tag, or right in front of it if the last member leaks |
| `RoundTrip.ArrayParses` | libiqxmlrpc/value_parser.cc:84-117 | an array builder at level 1 or 2 reads all items and stops at the end tag that takes it to level zero, which is its own unless items have leaked |
| `RoundTrip.MemberParses` | libiqxmlrpc/value_parser.cc:43-76 | a member becomes one entry of the struct, and each end tag that its value leaks takes the struct builder one level up, at zero to its end; with a blank name it throws |
| `RoundTrip.ItemParses` | libiqxmlrpc/value_parser.cc:108-117 | an item becomes one more element, and its unread end tags are left to the array builder |
| `RoundTrip.EndsClose` | libiqxmlrpc/parser2.cc:66-74 | any row of end tags takes a builder of a struct, an array or a message up level by level, and the one that reaches zero is the last it reads |
| `RoundTrip.ScalarParses` | libiqxmlrpc/value_parser.cc:185-262 | each scalar, with or without a string tag, is read back from its own text, and how much is consumed, flat or not |
| `RoundTrip.ScalarReads` | libiqxmlrpc/value_parser.cc:223-262 | for each type, the text printed for a value becomes that value again, and no text becomes the empty string or empty data |
| `RoundTrip.LeafParses` | libiqxmlrpc/parser2.cc:231-254 | from the start tag of a typed scalar to its end tag: one value more, the same level, and through exactly if that is level zero |
| `RoundTrip.OpenTakesText` | libiqxmlrpc/parser2.cc:199-211 | the text of an element is taken without its end tag; an empty one is read off its end tag; a blank one throws |
| `Exactness.ValueComesBack` | libiqxmlrpc/value_parser.cc:160-262 | for any value of any depth, whatever follows it: its sub-build gives an equal value if and only if no container in it is too full of nils and no string and no member name in it is blank |
| `Exactness.BadItems` | libiqxmlrpc/value_parser.cc:108-117 | an array builder whose items do not all come back, or leak too much before the last, throws or ends with other items |
| `Exactness.BadMembers` | libiqxmlrpc/value_parser.cc:43-76 | the same for the members of a struct |
| `Exactness.BadMember` | libiqxmlrpc/value_parser.cc:43-76 | a member value that was read as something else makes the struct another one, whatever its builder then makes of the tokens that were left |
| `Accounting.ParseConfined` | libiqxmlrpc/parser2.cc:231-254 | a value, struct or array builder inside properly nested tokens, however wrongly it reads them, never reads past its own end tag, leaves the end tags of the levels above, and holds no more values than were opened in what it read |
| `Accounting.MemberStays` | libiqxmlrpc/value_parser.cc:64-76 | a member that was stored stays as it is, or the struct ends up with less than was opened |
| `Accounting.MemberSettles` | libiqxmlrpc/value_parser.cc:64-76 | a value that was read for a new name is what ends up under that name, or nothing does, or the struct ends up with less than was opened |
| `Accounting.ParseExtends` | libiqxmlrpc/request_parser.cc:37-49 | on any tokens: items, parameters and the value of a response are only ever added to |
| `Nesting.ContentIsTidy` | libiqxmlrpc/value_type_xml.cc:21-97 | what is printed for a value is nested, names all members, and opens exactly as many values as there are in it |
| `Boundaries.TwoNilsEndAnArray` | libiqxmlrpc/value_parser.cc:172-182 | every array that starts with two nils is read as those two, and the rest of it is left to the builder around it |
| `Boundaries.EmptyNameTakesEndTag` | libiqxmlrpc/parser2.cc:199-211 | a struct whose first member has no name is read with all its members, and the end tag of the value around it is read along with it |
| `Boundaries.MembersTakeEndTag` | libiqxmlrpc/value_parser.cc:43-76 | any members that leak nothing, at a struct builder that is one level too deep: all are read, and one end tag more |
| `Totality.ParseIsSound` | libiqxmlrpc/parser2.cc:231-254 | for any tokens at all, nested or not: a parse that does not throw leaves an unread suffix, stops for one of three reasons, and consumes something unless it only put back an end tag at level zero |
| `Builders.Parse` | libiqxmlrpc/parser2.cc:231-254 | the parse of any finite token sequence ends, never with more tokens than it began with, in a builder of the same kind; no level is negative |
| `Builders.VisitElement` | libiqxmlrpc/parser2.cc:59-64 | an element takes the builder one level down whatever the sub-build in it has consumed |
| `Elements.IntElement` | libiqxmlrpc/value_parser.cc:143-241 | under `int` and `i4`, for any text and any tokens behind, flat or not: the number that the text denotes in 32 bits, the default integer or an exception where there is no text, an exception where there is no number |
| `Elements.IntIsRead` | libiqxmlrpc/value_parser.cc:145-146 | the decimal text of every integer is read as that integer under either tag |
| `Elements.Int64Element` | libiqxmlrpc/value_parser.cc:147-241 | the same under `i8`, in 64 bits and with the default of its own |
| `Elements.BoolElement` | libiqxmlrpc/value_parser.cc:243-245 | any 32-bit number is a boolean, and zero alone is false; no text is refused |
| `Elements.DoubleElement` | libiqxmlrpc/value_parser.cc:247-249 | what the conversion makes of the text, or an exception |
| `Elements.StringElement` | libiqxmlrpc/value_parser.cc:195-233 | the text, or the empty string where it is blank |
| `Elements.BinaryElement` | libiqxmlrpc/value_parser.cc:214-253 | the decoded data with their text, no data where there is no text, or an exception |
| `Elements.DateElement` | libiqxmlrpc/value_parser.cc:255-257 | the time that the text stands for, or an exception; no text is refused |
| `Elements.TextAlone` | libiqxmlrpc/value_parser.cc:229-233 | text without an element is a string, and the end tag behind it is left |
| `Elements.NilElement` | libiqxmlrpc/value_parser.cc:172-182 | a nil is read off its start tag |
| `Refusals.ElementsOfAValue` | libiqxmlrpc/value_parser.cc:143-157 | eleven elements may stand in a value, one of them at most; any other is refused |
| `Refusals.ElementsOfAStruct` | libiqxmlrpc/value_parser.cc:25-30 | in a struct: member, in it name, and then value; anything else is refused |
| `Refusals.ElementsOfAnArray` | libiqxmlrpc/value_parser.cc:91-96 | in an array: data, and in it values; anything else is refused |
| `Refusals.ElementsOfARequest` | libiqxmlrpc/request_parser.cc:25-33 | in a request: the six transitions; anything else is refused |
| `Refusals.ElementsOfAResponse` | libiqxmlrpc/response_parser.cc:25-33 | in a response: the six transitions; anything else is refused |
| `Refusals.MemberNeedsValue` | libiqxmlrpc/value_parser.cc:67-70 | a member that ends before its value is refused |
| `Refusals.NamesAreText` | libiqxmlrpc/parser2.cc:199-211 | an element, a broken document or nothing at all in place of a member name is refused |
| `Refusals.MethodNamesAreText` | libiqxmlrpc/request_parser.cc:41-43 | the same for the name of a method |
| `Refusals.LastTextCounts` | libiqxmlrpc/value_parser.cc:223-262 | of several texts in one element the last one counts |
| `Refusals.SkippedOutside` | libiqxmlrpc/parser2.cc:246-248 | text outside of values, and white space everywhere, is skipped |
| `Refusals.ValueCutOff` | libiqxmlrpc/request_parser.cc:45-47 | a parameter or the value of a response that breaks off behind its start tag has no value to be made of |
| `Refusals.NothingInside` | libiqxmlrpc/request_parser.cc:51-58 | an empty request or response is refused |
| `Refusals.FaultParses` | libiqxmlrpc/response_parser.cc:57-73 | a fault of any peer, with any readable value in it: a response if it is a struct of faultCode, an integer, and faultString, a string, and nothing else; an exception otherwise |
| `Documents.NumbersArePrinted` | libiqxmlrpc/value_type_xml.cc:27-50 | nil, integers and booleans, tag by tag |
| `Documents.StringsArePrinted` | libiqxmlrpc/value_type_xml.cc:52-59 | strings, with their tag or without |
| `Documents.BinaryIsPrinted` | libiqxmlrpc/value_type_xml.cc:89-92 | the text that was kept with the data, or their encoding |
| `Documents.TimesArePrinted` | libiqxmlrpc/value_type_xml.cc:94-97 | times under their tag |
| `Documents.StructsArePrinted` | libiqxmlrpc/value_type_xml.cc:61-74 | one more entry of a struct is one more member at its end, name first |
| `Documents.ArraysArePrinted` | libiqxmlrpc/value_type_xml.cc:76-87 | one more item of an array is one more value at its end |
| `Documents.RequestsArePrinted` | libiqxmlrpc/request.cc:25-46 | one more parameter of a request is one more param at its end, strings with their tag |
| `Documents.NoParamsArePrinted` | libiqxmlrpc/request.cc:25-46 | a request without parameters |
| `Documents.AnswersArePrinted` | libiqxmlrpc/response.cc:25-36 | a response with a value |
| `Documents.FaultsArePrinted` | libiqxmlrpc/response.cc:36-42 | a fault, tag by tag, faultCode as an integer before faultString |
| `Messages.ValueRoundTrip` | libiqxmlrpc/value_type_xml.cc:21-97 | with string tags or without: a value comes back equal if and only if at no depth it has too many nils and no string and no member name in it is blank |
| `Messages.RequestRoundTrip` | libiqxmlrpc/request.cc:16-46 | a printed request comes back with the same name and parameters if and only if its name is not blank, its parameters are readable, none has too many nils by itself, and before the last one the leaks never reach the scalars plus the levels the builder starts with |
| `Messages.BadParams` | libiqxmlrpc/request_parser.cc:37-49 | parameters one of which has too many nils by itself: the parse throws or gives other parameters |
| `Messages.RequestParses` | libiqxmlrpc/request_parser.cc:37-58 | the exact outcome for a printed request none of whose parameters has too many nils by itself: which parameters are taken, what they become, and when it throws |
| `Messages.ParamsParse` | libiqxmlrpc/request_parser.cc:37-49 | the parameters taken, of such that do not have too many nils by themselves, from any level on and with any number taken before |
| `Messages.NameParses` | libiqxmlrpc/request_parser.cc:37-43 | the method name up to the parameters: a blank one throws, an empty one leaves the builder one level too deep |
| `Messages.NilsDropParameter` | libiqxmlrpc/value_parser.cc:172-182 | f(nil, nil, 1) is parsed as f(nil, nil) |
| `Messages.ResponseRoundTrip` | libiqxmlrpc/response.cc:16-46 | a printed value response comes back equal if and only if its value is readable and at no depth has too many nils, and a printed fault if and only if its string is not blank |
| `Messages.OkResponseParses` | libiqxmlrpc/response_parser.cc:51-55 | the exact outcome for a printed response with a value, nils included as long as no container is too full of them |
| `Messages.FaultResponseParses` | libiqxmlrpc/response_parser.cc:57-73 | a printed fault is recognised as one, with its code, and its string emptied if blank |
| `XmlParser.Parser.Read` | libiqxmlrpc/parser2.cc:143-171 | delivers the tokens to come one by one: the one pushed back, the synthesised end tag, the next node; throws where the reader fails |
| `XmlParser.Parser.PushBack` | libiqxmlrpc/parser2.cc:238-242 | the end tag just read is in front of the tokens to come again |
| `XmlParser.Parser.ReadData` | libiqxmlrpc/parser2.cc:199-211 | takes text, or an end tag for empty text, exactly as the specification on tokens |
| `XmlParser.Parser.Parse` | libiqxmlrpc/parser2.cc:231-254 | the loop ends, and parser and builder are where the specification puts them, or the same exception is thrown |
| `XmlParser.Builder.VisitElement` | libiqxmlrpc/parser2.cc:59-64 | level, state machine, and text, sub-build or exit as specified |
| `XmlParser.Builder.SubBuild` | libiqxmlrpc/parser2.h:51-58 | a builder of its own on the same parser, flat or not |
| `XmlParser.ParseRequest` | libiqxmlrpc/request.cc:16-22 | on any nodes: the request, or the exception, of the specification |
| `XmlParser.ParseResponse` | libiqxmlrpc/response.cc:16-22 | on any nodes: the response, or the exception, of the specification |
| `XmlWriter.XmlBuilder.StartElement` | libiqxmlrpc/xml_builder.cc:28-33 | what a reader will see grows by a start tag |
| `XmlWriter.XmlBuilder.EndElement` | libiqxmlrpc/xml_builder.cc:35-38 | what a reader will see grows by the end tag of the innermost element, also where that is written as an empty one |
| `XmlWriter.XmlBuilder.Stop` | libiqxmlrpc/xml_builder.cc:70-74 | all open elements are closed, innermost first |
| `XmlWriter.VisitValue` | libiqxmlrpc/value_type_xml.cc:21-25 | what is written for a value, read back node by node, is its token sequence |
| `XmlWriter.VisitStruct` | libiqxmlrpc/value_type_xml.cc:61-74 | the same for a struct, member by member |
| `XmlWriter.VisitItems` | libiqxmlrpc/value_type_xml.cc:76-87 | the same for the items of an array |
| `XmlWriter.DumpRequest` | libiqxmlrpc/request.cc:25-46 | the nodes of a printed request are the tokens that `Messages.RequestRoundTrip` is about |
| `XmlWriter.DumpResponse` | libiqxmlrpc/response.cc:25-46 | the nodes of a printed response are the tokens that `Messages.ResponseRoundTrip` is about |
| `ServerHistory.ExactlyOnce` | libiqxmlrpc/executor.cc:96-136 | in every run: executors are taken in the order of registration; each is queued, running or answered, and only one of these; on one thread at most, with one answer at most |
| `ServerHistory.StepKeepsHistory` | libiqxmlrpc/executor.cc:89-116 | every step of every thread keeps the invariant behind that |
| `ServerPool.WorkConservation` | libiqxmlrpc/executor.cc:96-116 | in every run, with spurious wake-ups: until the pool is destroyed, no thread waits or the queue is no longer than the number of threads about to look at it |
| `ServerPool.StepKeepsConserving` | libiqxmlrpc/executor.cc:163-168 | every step keeps that, `notify_one` being the one that has to |
| `ServerPool.LockIsExclusive` | libiqxmlrpc/executor.cc:89-116 | in every run: one thread at most stands still with `req_queue_lock`, and while it does nobody else changes the queue or starts to wait |
| `ServerPool.BroadcastReaches` | libiqxmlrpc/executor.cc:171-178 | after the only `notify_all` of the destructor a thread can wait again if and only if one was running a request or on its way to the queue when it was sent |
| `ServerPool.SleepsOn` | libiqxmlrpc/executor.cc:171-178 | a thread that waits then is woken by no step of the destructor |
| `ServerPool.ShutdownMayHang` | libiqxmlrpc/executor.cc:96-116 | a run in which that happens |
| `ServerPool.LockOrder` | libiqxmlrpc/executor.cc:171-185 | once the flag is set, the destructor can go on if and only if no thread stands between `req_queue_lock` and `destructor_lock` |
| `ServerPool.LocksMayCross` | libiqxmlrpc/executor.cc:171-185 | a run in which one does |
| `ServerReactor.NoLostInterrupt` | libiqxmlrpc/server.cc:251-269 | in every run: whenever the reactor thread is in `poll` although a stop was requested, or an interest is registered that is not in its snapshot, an interrupter byte is unread or the thread in charge has yet to send one |
| `ServerReactor.HandlersAreFound` | libiqxmlrpc/reactor_impl.h:252-291 | in every run: each descriptor of a batch still has its handler when its turn comes, and the loop never runs out of handlers |
| `ServerReactor.ConnectionsAreNotShared` | libiqxmlrpc/http_server.cc:79-104 | in every run: the connection of a queued or running executor is alive, not polled, not being handled, and has no other such executor |
| `ServerReactor.IdleMeansDone` | libiqxmlrpc/server.cc:251-269 | in every run: when the reactor is blocked, no byte is under way, all threads wait and no connection that would take output is polled for it, the queue is empty, every request is answered, no answer is unwritten that could be written, what is polled for is what the table says, for input wherever nothing is unwritten, and no stop is pending |
| `ServerReactor.StepKeepsSafe` | libiqxmlrpc/http_server.cc:79-130 | every step of every thread keeps the invariant behind these, what each connection is polled for included, and a `poll` that a signal interrupts among the steps |
| `ServerReactor.KeepsOwners` | libiqxmlrpc/http_server.cc:73-130 | a handler that moves one connection between the table, the reactor thread and nowhere leaves every connection with one owner |
| `ServerReactor.PolledFor` | libiqxmlrpc/http_server.cc:73-130 | in every run: a connection is polled for output alone while an answer is unwritten, for both while an interim response or an early error is, and otherwise for input alone; what is unwritten belongs to a living connection that is polled |
| `ServerReactor.AnswersGoFirst` | libiqxmlrpc/reactor_impl.h:175-186 | in every run: input is handled only for connections without an unwritten answer |
| `ServerBooks.BooksAgree` | libiqxmlrpc/server.cc:251-269 | in every run, counted by its steps: bytes unread are bytes sent less bytes read, stops outstanding are stops asked for less bytes sent for them, the threads are those added, the flag is up from the last request to stop until the loop is left, and each answer is the result, or the fault made of the exception, of its executor |
| `ServerBooks.StopIsObeyed` | libiqxmlrpc/server.cc:259-269 | once a stop was asked for and the thread is at its check, it does not poll again before it has left the loop |
| `ServerProgress.EveryRequestCanBeAnswered` | libiqxmlrpc/executor.cc:89-116 | from the end of every run the pool threads alone can answer all that is registered, without spurious wake-ups, as long as there is a thread and the pool is not destroyed |
| `ServerService.AnswerCanBeWritten` | libiqxmlrpc/http_server.cc:107-124 | from the end of every run in which the loop is on: the reactor thread alone can write any answer that is unwritten, and the connection is then polled for its next request |
| `ServerService.RequestCanBegin` | libiqxmlrpc/http_server.cc:79-104 | likewise: it can read a request from any connection that is registered and has no answer unwritten |
| `ServerService.ClientCanCome` | libiqxmlrpc/http_server.cc:66-70 | likewise: it can accept any new connection, which is then polled for input |
| `ServerService.StopCanBeObeyed` | libiqxmlrpc/server.cc:259-269 | from the end of every run: once a stop was asked for it can leave the loop |
| `ServerService.BatchCanEnd` | libiqxmlrpc/reactor_impl.h:252-291 | any batch of events can be handled to its end without touching what is registered or unwritten |
| `ServerService.InputComesFirst` | libiqxmlrpc/reactor_impl.h:175-186 | requests are read on input, and answers written on output without input |
| `Execution.Exchange.ScheduleExecute` | libiqxmlrpc/server.cc:181-235 | what is sent, thrown and deleted on each exception path, whichever attempts to answer throw; or the executor waits in the pool and nothing is sent |
| `Execution.Exchange.SerialExecute` | libiqxmlrpc/executor.cc:43-54 | a result or a Fault is answered; anything else leaves, what sending has thrown too |
| `Execution.Exchange.ProcessActualExecution` | libiqxmlrpc/executor.cc:211-230 | every outcome is answered, and a result that cannot be sent is answered by a fault |
| `Execution.Exchange.Serve` | libiqxmlrpc/server.cc:181-244 | a request under either executor makes the attempts of the specification, and each deletes the executor if there is one |
| `Execution.Exchange.ScheduleResponse` | libiqxmlrpc/server.cc:237-244 | one attempt to send, and the executor deleted whether it throws or not |
| `Execution.AnsweredOnce` | libiqxmlrpc/server.cc:181-244 | whatever fails, and whichever attempts to answer throw: one answer, or none and the last exception escapes; three attempts at most; the right answer if the first succeeds |
| `Execution.AnswerSent` | libiqxmlrpc/server.cc:210-235 | what is sent in full, for every attempt that succeeds: an HTTP error with its own status and phrase, a Fault or other exception of the library with its own code and text, all else as -32500; in the pool -1 and the text unless it is a Fault |
| `Execution.AttemptsMade` | libiqxmlrpc/executor.cc:43-54 | how many attempts are made: one, two, or three if a fault that came of sending the result could not be sent from the serial executor |
| `Execution.DeletedOnce` | libiqxmlrpc/server.cc:237-244 | there is one attempt, and so one deletion, if and only if the first succeeds or is made outside the try blocks |
| `Execution.ExecutorsAgree` | libiqxmlrpc/server.cc:214-234 | the two executors answer alike if and only if the method returns, throws a Fault, or throws another library exception with code -1 that is no HTTP error |
| `ReactorTable.TablesAgree` | libiqxmlrpc/reactor_impl.h:106-173 | after any run of operations both tables list the same descriptors, none twice, the iterator used is never the end, and the stoppers are counted right if each is registered once |
| `ReactorTable.OpKeepsCount` | libiqxmlrpc/reactor_impl.h:107-163 | the count of stoppers stays right if and only if the operation does not register a stopper again |
| `ReactorTable.UnregisterMaskExactly` | libiqxmlrpc/reactor_impl.h:128-147 | unregistering a mask leaves the entry with its other kinds of event if and only if there is no entry or it has no other kinds; for the empty mask, if and only if it does not wait for output |
| `ReactorTable.UnregisterOneLosesBoth` | libiqxmlrpc/reactor_impl.h:128-147 | unregistering any non-empty mask does what unregistering the handler does |
| `ReactorTable.EntryStep` | libiqxmlrpc/reactor_impl.h:106-173 | what a descriptor is registered for after an operation depends on the operation and on what it was registered for before |
| `ReactorTable.RegisteredSince` | libiqxmlrpc/reactor_impl.h:106-163 | after any run of operations: a descriptor is registered for exactly the kinds of event it was registered for since it was last unregistered |
| `ReactorTable.FakedSince` | libiqxmlrpc/reactor_impl.h:165-173 | after any run of operations: its events are exactly those set since it was entered |
| `ReactorTable.NothingFiresAgain` | libiqxmlrpc/reactor_impl.h:227-242 | events that were collected are not collected again, if and only if there is no input for a descriptor that is registered for nothing |
| `ReactorTable.DispatchFinds` | libiqxmlrpc/reactor_impl.h:207-225 | whatever the callbacks of a batch do: every handler is found if and only if, when its turn comes, what the callbacks before it have done leaves its descriptor registered |
| `ReactorTable.AllAreFound` | libiqxmlrpc/reactor_impl.h:207-225 | if callbacks unregister only themselves, every descriptor of a batch is found |
| `ReactorTable.ALaterOneMissing` | libiqxmlrpc/reactor_impl.h:207-225 | in any batch: a callback whose last deed is to unregister a later one makes it go missing, unless one in between registers it again |
| `ReactorTable.UserEventsAreFound` | libiqxmlrpc/reactor_impl.h:227-250 | the batch of fake events can be dispatched like any other |
| `ReactorTable.Reactor.RegisterHandler` | libiqxmlrpc/reactor_impl.h:106-126 | a new descriptor is entered in both tables, a known one gets the mask added, a stopper is counted either way; the tables agree before and after |
| `ReactorTable.Reactor.UnregisterHandlerMask` | libiqxmlrpc/reactor_impl.h:128-147 | the mask is combined with the logical negation as written, and an entry whose mask is empty then leaves both tables and the count; the tables agree before and after |
| `ReactorTable.Reactor.UnregisterHandler` | libiqxmlrpc/reactor_impl.h:149-163 | the entry leaves both tables and the count, or nothing changes; the tables agree before and after |
| `ReactorTable.Reactor.SetFakeEvent` | libiqxmlrpc/reactor_impl.h:165-173 | an event is added to a known descriptor and nothing else changes; the tables agree before and after |
| `ReactorTable.Reactor.CollectUserEvents` | libiqxmlrpc/reactor_impl.h:227-242 | the batch is what has events, in order, and those are cleared |
| `HttpSession.ChunkingIndependence` | libiqxmlrpc/http.cc:452-492 | for any beginning of a stream whose header ends in a definite place, cut into pieces in any way: nothing until header and content are there, and then the packet or the error that the bytes alone determine, without what follows |
| `HttpSession.WhenSteady` | libiqxmlrpc/http.cc:431-450 | the end of the header is independent of the pieces if and only if no bare empty line ends before the first CRLF one ends |
| `HttpAmbiguity.OneStreamTwoResults` | libiqxmlrpc/http.cc:431-450 | any request without content, a bare empty line, any line without a colon and a proper empty line: cut behind the bare one, the stream is that request, and in one piece it is refused as malformed |
| `HttpAmbiguity.SuchAStream` | libiqxmlrpc/http.cc:431-450 | such a stream, byte by byte |
| `HttpConnection.RequestIsRead` | libiqxmlrpc/server_conn.cc:25-48 | a dumped request, cut in any way, is read as it was sent, and the connection is kept alive if and only if the sender asks for that, with or without an interim response in between |
| `HttpContinue.ContinueExactly` | libiqxmlrpc/server_conn.cc:25-48 | at any moment of a request, however it is cut: it has been told to continue if and only if it asks for that, a piece has ended behind its header but before its end, and none was told before on the connection |
| `HttpContinue.SeriesTells` | libiqxmlrpc/server_conn.cc:33-40 | over any series of requests on a connection: one interim response if one of them asks and waits and none was sent before, and none otherwise |
| `HttpContinue.OnlyTheFirst` | libiqxmlrpc/http.cc:494-502 | of such a series a request is told if and only if it is the first that asks and waits |
| `HttpContinue.TheSecondIsNotTold` | libiqxmlrpc/http.cc:408-415 | two requests that ask and send their header alone: the first is told, the second is not |
| `HttpContinue.HeaderThenContent` | libiqxmlrpc/server_conn.cc:33-40 | a request that asks and is cut behind its header waits |
| `HttpContinue.SuchARequest` | libiqxmlrpc/http.cc:63-70 | for every target and every content there is a request that asks and can be sent |
| `HttpConnection.ContinueOnce` | libiqxmlrpc/http.cc:494-502 | on any bytes at all, requests or not: one interim response at most, and a connection that has sent one remembers it |
| `HttpConnection.InterimResponse` | libiqxmlrpc/server_conn.cc:33-40 | the interim response, byte by byte; the connection is then kept alive, and without one response and connection stay as they were |
| `HttpConnection.ErrorsOnTheWay` | libiqxmlrpc/server_conn.cc:44-48 | a malformed packet is a bad request; every other error goes on as it is |
| `HttpConnection.PacketIsTaken` | libiqxmlrpc/server_conn.cc:33-35 | a packet is handed on as it is, and the connection is kept alive if and only if it says keep-alive |
| `HttpConnection.ContinueIsKept` | libiqxmlrpc/http.cc:408-415 | whether it was sent changes nothing of what a reader makes of a piece, and a new packet does not reset it |
| `HttpConnection.ServerConnection.ReadRequest` | libiqxmlrpc/server_conn.cc:25-48 | settings, reader, interim response and errors as in the specification |
| `HttpSession.SizeLimit` | libiqxmlrpc/http.cc:417-429 | a packet that arrives alone is delivered if and only if it is shorter than the limit, for every way to cut it, and refused as too large otherwise |
| `HttpSession.AnnouncedSize` | libiqxmlrpc/http.cc:417-429 | with the next piece behind a header a content is refused as too large if and only if it is announced as that, counted from the end of the header, or if all that has arrived is too much |
| `HttpSession.EmptyPiece` | libiqxmlrpc/http.cc:460-487 | a piece without bytes is an error before there is a header, and adds nothing after that |
| `HttpSession.SessionRoundTrip` | libiqxmlrpc/http.cc:408-415 | a series of dumped requests over one reader, each cut in any way, gives the same targets, options and contents in order |
| `HttpSession.PacketArrives` | libiqxmlrpc/http.cc:452-492 | one dumped request at a fresh reader or one that has just delivered another |
| `HttpSession.PieceStep` | libiqxmlrpc/http.cc:452-492 | the state after a piece depends on all the bytes since the last packet and on nothing else |
| `HttpSession.LengthIsThere` | libiqxmlrpc/http.cc:391-396 | setting the length of the received content changes no option |
| `HttpHeader.HeaderRoundTrip` | libiqxmlrpc/http.cc:97-122 | a printed header is read back with the same target and the same options, completed by the defaults |
| `HttpHeader.DumpedText` | libiqxmlrpc/http.cc:188-198 | the text of a header, byte by byte: request line, one line an option, and an empty line |
| `HttpFreeForm.OptionIsRead` | libiqxmlrpc/http.cc:108-119 | an option line with white space anywhere around name and value and a name in any case: the name in lower case, and the value |
| `HttpFreeForm.AnyLine` | libiqxmlrpc/http.cc:108-119 | every line with a colon is such a line, and no other line is read |
| `HttpFreeForm.Validators` | libiqxmlrpc/http.cc:42-91 | what the validators want of content-length, expect and, if strict, content-type, and that they want nothing of other options |
| `HttpFreeForm.HeaderIsRead` | libiqxmlrpc/http.cc:232-252 | any text of such lines with any line ends: the target of its first line, and for every name the last value that was given to it in any case, or its default, or nothing |
| `HttpFreeForm.HeaderIsRefused` | libiqxmlrpc/http.cc:108-119 | the first line without a colon, or with a value that a validator objects to, decides the error, before the method does |
| `HttpFreeForm.EndedIsRefused` | libiqxmlrpc/http.cc:99-111 | a line end behind the last option is refused as a line without a colon |
| `HttpFreeForm.TargetIsRead` | libiqxmlrpc/http.cc:239-251 | the target is the second word of a line that begins with POST |
| `HttpFreeForm.NoTarget` | libiqxmlrpc/http.cc:239-251 | a line with that word alone has an empty target |
| `HttpFreeForm.OtherMethod` | libiqxmlrpc/http.cc:247-248 | any other first word is refused |
| `HttpFreeForm.RequestArrives` | libiqxmlrpc/http.cc:452-492 | a request in such a form through a packet reader, cut in any way, with or without bytes behind it: its target, its options, and as much content as its last content-length says |
| `HttpFreeForm.LengthIsWanted` | libiqxmlrpc/http.cc:213-219 | without a content-length, in whatever case, it is refused for that |
| `HttpHeader.ParseHeadOf` | libiqxmlrpc/http.cc:239-251 | the target is read back from the request line |
| `HttpHeader.OptionsArrive` | libiqxmlrpc/http.cc:150-168 | setting all options of a map on a new header gives that map, with connection: close if there is no such option |
| `HttpText.SplitJoin` | libiqxmlrpc/http.cc:99-106 | splitting joined lines at line ends gives the lines |
| `HttpReader.PacketReader.Read` | libiqxmlrpc/http.cc:452-507 | state and result of a reader with any history are those of the specification |
| `HttpReader.PacketReader.ReadHeader` | libiqxmlrpc/http.cc:431-450 | the cache is cut at the first CRLF empty line, or else at the first bare one |
| `HttpReader.PacketReader.CheckSz` | libiqxmlrpc/http.cc:417-429 | when the announced or the total size is refused |
| `RequestHeaderModel.RequestHeader.Parse` | libiqxmlrpc/http.cc:97-122 | the loop over the lines sets the options of the specification, or throws the same error |
| `RequestHeaderModel.RequestHeader.Construct` | libiqxmlrpc/http.cc:232-252 | the header of the specification, or the same error |
| `RequestHeaderModel.RequestHeader.DumpText` | libiqxmlrpc/http.cc:188-198 | the loop writes the text of the specification |
| `RequestHeaderModel.RequestHeader.SetConnKeepAlive` | libiqxmlrpc/http.cc:208-211 | one option is set and no other changes |
| `RequestHeaderModel.Packet.constructor` | libiqxmlrpc/http.cc:391-396 | the length of the content is set in the header, and the type if there is content |
| `RequestHeaderModel.DumpPacket` | libiqxmlrpc/http.h:166-169 | a packet made and dumped is the text that `HttpSession.SessionRoundTrip` is about |
| `RequestHeaderModel.RequestHeader.SetXHeaders` | libiqxmlrpc/http.cc:287-292 | all entries are set, in order |
| `RequestHeaderModel.RequestHeader.SetAuthInfo` | libiqxmlrpc/http.cc:324-329 | the option of the specification, through the base64 object |
| `RequestHeaderModel.RequestHeader.GetAuthInfo` | libiqxmlrpc/http.cc:299-322 | user and password, or the error, of the specification |
| `HttpOptions.AuthInfoRoundTrip` | libiqxmlrpc/http.cc:299-329 | for any header: user and password are set, the header is dumped and its text is parsed, and they are got back if and only if there is no colon in the user |
| `HttpOptions.TwoWords` | libiqxmlrpc/http.cc:299-322 | an option of two words: refused unless the first is basic in any case, or if the second is no base64; otherwise the credentials in it |
| `HttpOptions.OneWord` | libiqxmlrpc/http.cc:299-309 | no option, or one of a single word, is refused |
| `HttpOptions.MoreWords` | libiqxmlrpc/http.cc:308-309 | three words or more, or two with more than one blank between them, are refused |
| `HttpOptions.CredentialsSplit` | libiqxmlrpc/http.cc:315-321 | user and password stand on either side of the first colon; without a colon all is the user |
| `HttpOptions.AuthInfoIsSet` | libiqxmlrpc/http.cc:324-329 | setting them puts Basic, a blank and their base64 text under authorization and changes no other option |
| `HttpOptions.AuthInfoTravels` | libiqxmlrpc/http.cc:452-492 | the same through a packet reader, however the bytes of the packet are cut |
| `HttpOptions.AuthInfoFits` | libiqxmlrpc/http.cc:324-329 | the option can stand in a header whatever user and password are |
| `HttpOptions.XHeadersArrive` | libiqxmlrpc/http.cc:282-292 | the X- headers set on a request are those found on the other side |
| `HttpOptions.XHeadersTravel` | libiqxmlrpc/http.cc:282-292 | the same through a packet reader, however the bytes of the packet are cut |
| `HttpOptions.XHeadersAreFiltered` | libiqxmlrpc/xheaders.cc:7-17 | of options with lower-case names exactly those that begin with x- are kept, with their values |
| `HttpOptions.XNames` | libiqxmlrpc/xheaders.cc:48-50 | a name is that of an X- header if it begins with that, in either case |
| `HttpOptions.XHeaders.Assign` | libiqxmlrpc/xheaders.cc:7-17 | the loop keeps what is selected, under lower-case names |
| `HttpOptions.XHeaders.Set` | libiqxmlrpc/xheaders.cc:21-28 | one entry changes under its lower-case name, or nothing if the name is refused |
| `Base64.RoundTrip` | libiqxmlrpc/value_type.cc:381-416 | decoding what was encoded gives back every octet string; section 4 of RFC 4648 |
| `Base64.Encode` | libiqxmlrpc/value_type.cc:381-416 | the length is four times the number of groups |
| `Base64.Acceptance` | libiqxmlrpc/value_type.cc:443-490 | text is decoded if and only if what is left without white space is made of valid quads |
| `Base64.WhiteSpaceIgnored` | libiqxmlrpc/value_type.cc:469-490 | white space anywhere changes nothing |
| `Base64.Distributes` | libiqxmlrpc/value_type.cc:469-490 | whole quads are decoded independently, padded or not |
| `Base64.Canonicity` | libiqxmlrpc/value_type.cc:443-490 | encoding what was decoded gives back the text if and only if it has no white space, padding only at the end, and zero spare bits; section 3.5 of RFC 4648 |
| `Notation.Alphabet` | libiqxmlrpc/value_type.cc:322-327 | the 64 characters in their order; table 1 of RFC 4648 |
| `Notation.OnlyTheAlphabet` | libiqxmlrpc/value_type.cc:419-440 | and no others |
| `Notation.Group` | libiqxmlrpc/value_type.cc:381-416 | the characters of a group are the base-64 digits of its octets taken as one number, with padding in place of those that hold none |
| `Notation.Quad` | libiqxmlrpc/value_type.cc:443-466 | the octets of four characters are those of the number that they write, as far as padding leaves them |
| `BinaryDataModel.BinaryData.GetBase64` | libiqxmlrpc/value_type.cc:366-372 | the text that was kept, or the encoding made on demand; either decodes to the data |
| `BinaryDataModel.BinaryData.FromBase64` | libiqxmlrpc/value_type.cc:330-358 | an object whose text decodes to its data, or the exception |
| `BinaryDataModel.BinaryData.DecodeText` | libiqxmlrpc/value_type.cc:469-490 | the loop that collects four characters at a time decodes, or throws |
| `BinaryDataModel.BinaryData.EncodeData` | libiqxmlrpc/value_type.cc:381-416 | the loop over groups encodes |
| `BinaryDataModel.SplitGroup` | libiqxmlrpc/value_type.cc:381-416 | shifting and masking characters, signed ones too, gives the sextets of the octets |
| `BinaryDataModel.DecodeFour` | libiqxmlrpc/value_type.cc:443-466 | shifting pairs of sextets and cutting to a character gives the octets |
| `DateTime.RoundTrip` | libiqxmlrpc/value_type.cc:526-580 | every valid time from 1900 to 9999 is read back from its text in all six fields |
| `DateTime.Normalises` | libiqxmlrpc/value_type.cc:526-549 | for every text that is accepted, parsing, printing and parsing again is parsing once |
| `Notation.PrintedTime` | libiqxmlrpc/value_type.cc:570-580 | the text of a time: T and colons in their places, and digits in the others that denote year, month, day, hour, minute and second |
| `Notation.TimesAccepted` | libiqxmlrpc/value_type.cc:526-549 | exactly which texts are taken for times and for which: T in the ninth place, digits, T and colons before the last, and leading digits of each field in range |
| `Text.IntTextParses` | libiqxmlrpc/value_parser.cc:235-241 | a printed integer is read back in any range that holds it, and its text is never blank |
| `Notation.IntegerText` | libiqxmlrpc/value_type_xml.cc:32-40 | an integer is printed as digits that denote it, after a minus sign if it is negative |
| `Notation.NoLeadingZero` | libiqxmlrpc/value_type_xml.cc:32-40 | and without a zero in front |
| `Notation.NumberText` | libiqxmlrpc/value_parser.cc:235-241 | digits, with a sign or without, are read as the number they denote if it is in range |
| `Notation.NoNumberText` | libiqxmlrpc/value_parser.cc:235-241 | and no other text is read as a number |
| `OrderedMap.LessExactly` | libiqxmlrpc/value_type_xml.cc:61-74 | the order in which members are printed: by the first character that differs, a beginning before its continuations |
| `ValueHeap.Copy` | libiqxmlrpc/value.cc:69-72 | the copy stands for the same tree, with cells that did not exist before |
| `ValueHeap.CloneAll` | libiqxmlrpc/value_type.cc:127-130 | the loop over the elements gives such copies of all |
| `ValueHeap.Assign` | libiqxmlrpc/value.cc:154-160 | the target stands for what the source stood for, though one may be a part of the other, and the cells it had are deleted |
| `ValueHeap.AssignContainer` | libiqxmlrpc/value_type.cc:139-153 | the same for arrays and structs, by copy and swap; assigning one to itself changes nothing |
| `ValueHeap.PushBack` | libiqxmlrpc/value_type.cc:193-196 | the array has a copy of the value at its end, though the value may be a part of the array or the array |
| `ValueHeap.Insert` | libiqxmlrpc/value_type.cc:306-318 | the struct is the map with one entry put, though the value may be a part of the entry that is replaced; the cells of that entry are deleted, all others are kept, and those of the new one are fresh |
| `ValueHeap.Delete` | libiqxmlrpc/value.cc:134-137 | all cells of a value are deleted |
| `ValueHeap.CopyThenAssign` | libiqxmlrpc/value.cc:154-160 | a copy keeps its value when the original is assigned to, and shares no cell with it |

## Left out

- Messages.ValueRoundTrip: values with an empty member name are not covered, because the levels then depend on where the struct stands; the effect is stated by `Boundaries.EmptyNameTakesEndTag` for members that leak nothing.
- RoundTrip.ValueParses: what a container too full of nils is read as, for itself and for the builders around it, depends on all that follows it; `Exactness.BadValue` says that it is not read as what it is.
- Messages.RequestParses: the exact outcome is given for parameters none of which has too many nils by itself; for the others `Messages.BadParams` says that they do not come back, not what comes instead.
- Messages.ParamsParse: likewise.
- Messages.OkResponseParses: likewise; where the value has nils the end tags left over are only known to be end tags.
- RoundTrip.DoubleReads: the text of doubles is a parameter, and a value is covered if for each double in it reading inverts printing and the text is not blank; NaN and the infinities do not occur.
- HttpSession.SessionRoundTrip: a new packet starts with a new piece; the reader throws away what follows a packet in the same piece.
- ServerReactor.NoLostInterrupt: `exit_flag` is taken to be seen by the reactor thread at once, the bytes of the interrupter to be unlimited, and a descriptor to be dispatched at most once in a batch.
- ServerReactor.PolledFor: an interim response that is still unwritten when its request is complete is given up there; errors on the listening socket and on the interrupter are not among the events.
- ServerProgress.EveryRequestCanBeAnswered: that the threads can, not that a scheduler lets them; the same holds for `ServerService`.
- Execution.Exchange.ProcessActualExecution: what the original does with an executor after its deletion is undefined; the model goes on and counts.
- Server: in the step system sending an answer does not throw; what happens when it does is stated by `Execution.AnsweredOnce`.
- HttpConnection.RequestIsRead: what becomes of an interim response that is still being written when the request is complete.
- libxml2: characters, entities, encodings and error texts; nodes carry local names, so the removal of prefixes (parser2.cc, tag_name) is not modelled.
- Sockets, `poll` and `select`, connectors, acceptors, DNS and SSL: `poll` returns any events of its snapshot, and errors of connections as output, which is how they are reported.
- The client side of HTTP: responses are not parsed, so reason phrases and header-only reading do not occur.
- Server: the choice of methods, interceptors, authentication plug-ins, the firewall and the log.
- What becomes of executors that are still queued when the pool is destroyed, and of connections when `work` returns.
- The time zone and clock constructors of `Date_time`, its cached text, and `strftime` outside the years 1900 to 9999.
- `Array::assign`, `Struct::erase` and iterators.
