# DataStax Enterprise C++ driver: model and proofs

This project models the parts of the driver that carry its hardest promises and proves them in
Dafny 4.11. There are seven parts.

1. **One connection** (`Requests`, `ConnectionModel`, `ConnectionInvariant`, `ConnectionTheorems`,
   `ConnectionOutcomes`, `Connection`, `SslWriter`). A request takes a stream, joins a batch of
   pending writes, is flushed,
   completed by a write callback and answered by a response, in any order that a socket allows. It
   may be cancelled at any time or be swept up by the close callback. `ConnectionModel` is the
   transition system, `Connection` the class whose methods refine its steps,
   `ConnectionTheorems` what holds over whole runs, and `ConnectionOutcomes` what each step tells a
   request and the socket and does to the link, said without the functions of the model.
2. **Polygons** (`NumberLexeme`, `Wkt*`, `Wkb`, `Polygon*`). The back-patching builder, the printer,
   the table-driven scanner, the validator and the two iterators, with clauses 7 and 8 of
   OGC 06-103r4 for the two formats.
3. **Type names** (`DataTypes`, `ParserBase`, `TextPlaces`, `Cql*`, `Class*`). The parser of CQL type
   names against the printer, and the parser of Cassandra class names, whose slices of nested
   arguments are too long. `CqlKeywords` and `ClassLiterals` spell out the words and class names.
4. **Nested values** (`Values`, `ValueLayout`, `ValueRoundTrip`, `ValueBuffers`, `ValueIterators`, `ValueReadBack`).
   Sizes, encoding and iterators for collections, tuples and user types, after section 6 of the CQL binary protocol
   v4 specification.
5. **Query plans** (`QueryPlans`, `HostLists`, `HostChanges`, `DcAwarePolicy`, `RefCounted`, `CopyOnWrite`). The
   data-center-aware policy, and the copy-on-write pointers that keep its lists apart from the plans.
6. **Control connection** (`ControlStartup`). Protocol downgrade interleaved with host failover.
7. **Buffers** (`Buffers`). Inline or shared storage with hand-written copying.

Where the source changes things in place, the model is a class or a method with a loop, proved
against a function of the old state. The properties are then lemmas about these functions.

## What the proofs show about the code

Some promises hold only under a condition. The code was kept as it is and the exact condition is
proved.

- A second cancel of a request in flight sends it from a CANCELLED_* state to CANCELLED, although
  the connection still holds it. The invariant survives a cancel exactly when it is the first
  (`CancelOnce`); after the second one the response or the write callback hits an assertion.
- `set_state` has an edge to OVERWHELMED from READY only, and none from NEW to a closed state. A run
  fails an assertion exactly when a write overruns the high water mark before READY or after a close,
  or when a connection is closed that never started (`AssertionFailures`).
- Blanks at the end of a text make the scanner return one invalid token before the end-of-text token
  (`WktTokens.NextToken`), because the start state has no end-of-text transition.
- `reset_binary` moves over the counts but not over the points, and computes `2 * num_points` in 32
  bits. `CheckBinary` states exactly what is accepted, and `RingsAccepted` and `TwoRingsAccepted` say
  which polygons that are.
- Both walks over a polygon stop after an empty ring that is not the last one. They give the rings
  back exactly when there is none (`ReadRings`, `ReadRingsText`).
- `next_num_points` of the text iterator takes a token from the lexer before it finds out that it was
  called out of turn; the binary one changes nothing.
- `add_point` outside a ring writes its bytes all the same. They stand before the next ring, and the
  point is in the count of that ring (`AddPoint`, `CloseInside`).
- A comma between two points or two rings is optional to the validator (`CheckText`).
- A custom type prints its bare class name, which never parses back to it (`CustomIsLost`).
- The over-long slices of the class-name parser matter exactly when the keyspace of a user type has
  arguments of its own (`SlicesAreHarmless`, `KeyspaceSwallows`); text behind the whole name matters
  exactly when such a slice reaches the end of the name (`SuffixIsIgnored`).
- A bare tuple class is the empty tuple, alone and inside a list, and is refused when stray text
  follows it. A bare user class is refused alone, and takes stray text as its arguments, because
  `skip` passes any character for the parenthesis (`BareSuffix`, `BareUserTakes`).
- `is_tuple_type` looks at the outer name, so a frozen or reversed tuple becomes a custom type
  (`WrappedTupleIsCustom`).
- The local host list is appended to without a check, and hosts without a data center stay in it once
  the local data center is chosen. A plan may then hand out a host twice (`AddedTwice`,
  `ComesBackAsRemote`); `AddedPlaced` and `ChangesPlaced` say exactly when the list stays in order.
- A null item of a collection is written as an empty one. A value is read back exactly when it holds
  none (`BodyRoundTrip`); `BodyReadsBack` says what is read otherwise.
- A write through a large `Buffer` is seen by its copies (`Buffer.Write`); a small one is copied.

## Model

| member | source | states |
|---|---|---|
| `ConnectionTheorems.StepKeeps` | cpp-driver/src/connection.cpp:278-540 | every step (write, flush, write callback rounds, response, cancel, renew, set-up, close, close callback) keeps the connection invariant, and an assertion of the code fails in the step exactly when it overruns the high water mark of a connection that is neither READY nor OVERWHELMED or closes one that never started |
| `ConnectionTheorems.RunInv` | cpp-driver/src/connection.cpp:278-646 | the invariant holds in every state of every run |
| `ConnectionTheorems.AssertionFailures` | cpp-driver/src/connection.cpp:387-454 | an assertion has failed in a run if and only if one of its steps is of the two faulting kinds, so all other assertions, among them the three unreachable arms, hold in every run |
| `ConnectionTheorems.RunCounts` | cpp-driver/src/connection.cpp:278-345 | the ghost counter of acceptances is the number of accepting write steps of the run, and no request appears or disappears |
| `ConnectionTheorems.OneOutcomePerAcceptance` | cpp-driver/src/connection.cpp:278-345 | in every state of every run a request has had one terminal notification per acceptance, except for the acceptance still in flight, and the connection holds one reference exactly while it is in flight |
| `ConnectionTheorems.ClosedRunIsSettled` | cpp-driver/src/connection.cpp:604-646 | after the close callback every acceptance has had exactly one terminal notification and no reference is left |
| `ConnectionTheorems.ResponsesAreOwn` | cpp-driver/src/connection.cpp:490-535 | every response given to a request, or kept for it until its write callback, was received earlier in the run on the stream that the request then owned |
| `ConnectionTheorems.AcceptedIsHistory` | cpp-driver/src/connection.cpp:291-345 | the accepted bytes are the encodings of the accepted writes of the run in order; refused and failed writes add nothing |
| `ConnectionTheorems.SentIsPrefix` | cpp-driver/src/connection.cpp:1057-1084 | the socket has always been given a prefix of the accepted encodings in acceptance order, and never takes a byte back |
| `ConnectionTheorems.LivesInOnePlace` | cpp-driver/src/connection.cpp:1003-1055 | in every state of every run a request in flight is once in the read list or once in a pending batch, as its state says, and a request not in flight is in neither |
| `ConnectionTheorems.StreamTable` | cpp-driver/src/connection.cpp:283-306 | the stream table is injective and holds exactly the requests that still await a response |
| `ConnectionTheorems.WaterMarks` | cpp-driver/src/cluster.cpp:177-195 | the pending byte count is the size of the batches not completed; READY means at most the high mark, OVERWHELMED at least the low mark, and a drained connection is never OVERWHELMED |
| `ConnectionTheorems.CancelOnce` | cpp-driver/src/request_callback.cpp:78-168 | cancelling a request keeps the invariant if and only if it was not already cancelled in flight |
| `ConnectionTheorems.CancelTwiceFaults` | cpp-driver/src/request_callback.cpp:78-168 | after a second cancel the response or the write callback of the request runs into an assertion |
| `ConnectionInvariant.WriteKeeps` | cpp-driver/src/connection.cpp:278-345 | a write keeps the invariant in all its outcomes: no stream, failed encoding, cancelled before, accepted, and with or without flush |
| `ConnectionInvariant.FlushLastMoves` | cpp-driver/src/connection.cpp:1057-1084 | a flush moves the bytes of the last batch to the socket, marks it flushed, and changes nothing else that is counted |
| `Connections.CallBackAllSettles` | cpp-driver/src/connection.cpp:991-1055 | the loop of the write callback gives each request of its batch its own outcome and touches no other request |
| `Connections.CallBackAllKeeps` | cpp-driver/src/connection.cpp:991-1055 | a whole write callback keeps the invariant |
| `Connections.WriteDoneKeeps` | cpp-driver/src/connection.cpp:991-1055 | the write callback with its begin and its end keeps the invariant |
| `Connections.TakeAllKeeps` | cpp-driver/src/connection.cpp:456-540 | a whole read keeps the invariant, whatever messages it decodes |
| `Connections.ClosingTakesNothing` | cpp-driver/src/connection.cpp:456-540 | messages that follow an error or a close in the same read are dropped |
| `Connections.Connection.constructor` | cpp-driver/src/connection.cpp:205-226 | a new connection is in the initial state of the transition system |
| `Connections.Connection.SetState` | cpp-driver/src/connection.cpp:387-454 | the link state moves along the edges of the table, any other move fails an assertion, and the closed states are never left |
| `Connections.Connection.InternalClose` | cpp-driver/src/connection.cpp:370-385 | the first close decides between CLOSED and DEFUNCT; later ones do nothing |
| `Connections.Connection.SetRequestState` | cpp-driver/src/request_callback.cpp:78-168 | the request state moves as the table of transitions says, cancel included |
| `Connections.Connection.InternalWrite` | cpp-driver/src/connection.cpp:278-345 | the method has exactly the effect of the write step |
| `Connections.Connection.AppendEncoding` | cpp-driver/src/connection.cpp:977-989 | a successful encoding is appended to the last batch and may overwhelm the connection |
| `Connections.Connection.Flush` | cpp-driver/src/connection.cpp:347-351 | the method has exactly the effect of the flush step; the socket has then been given everything that was accepted |
| `Connections.Connection.OnWriteRound` | cpp-driver/src/connection.cpp:1003-1055 | one round of the write callback has exactly the effect of the callback step for the head of the batch |
| `Connections.Connection.OnWriteLoop` | cpp-driver/src/connection.cpp:1003-1055 | the loop is the callback step for every request of the batch in order |
| `Connections.Connection.OnWrite` | cpp-driver/src/connection.cpp:991-1055 | a whole write callback is begin, the rounds, and the flush of what has been queued meanwhile: the socket has then been given everything that was accepted |
| `Connections.Connection.OnWriteEnd` | cpp-driver/src/connection.cpp:1045-1055 | the batch is recycled and what was queued meanwhile is flushed |
| `Connections.WriteDoneSends` | cpp-driver/src/connection.cpp:1045-1055 | when a whole write callback is over, all accepted bytes have been given to the socket |
| `Connections.Connection.OnMessage` | cpp-driver/src/connection.cpp:490-535 | one decoded message has exactly the effect of the response step |
| `Connections.Connection.Consume` | cpp-driver/src/connection.cpp:456-540 | a read is its messages in order, up to the first that closes the connection |
| `Connections.Connection.CleanupPendingCallback` | cpp-driver/src/connection.cpp:60-94 | the sweep of one request has exactly the effect of the sweep step, whose outcome by state and idempotence CleanupTells states |
| `Connections.Connection.SweepReads` | cpp-driver/src/connection.cpp:611-614 | the read list is swept first, in order, and is left empty |
| `Connections.Connection.SweepWrites` | cpp-driver/src/connection.cpp:616-621 | then the pending batches, in order, which are left empty too |
| `Connections.Connection.OnClose` | cpp-driver/src/connection.cpp:604-646 | the close callback sweeps the read list and then the pending batches; each request in flight gets its saved response if it was read before its write was done, a cancellation if it was cancelled, else a retry if it is idempotent and a time-out if not, and no other request is touched |
| `ConnectionOutcomes.CleanupTells` | cpp-driver/src/connection.cpp:60-94 | the sweep ends a request with the saved response exactly if it was read before written, with a cancellation exactly if it was cancelled in flight, with a retry exactly if it was writing or reading and idempotent, with a time-out exactly if it was writing or reading and not idempotent |
| `ConnectionOutcomes.CloseTellsEach` | cpp-driver/src/connection.cpp:604-646 | in every run the close callback ends every request in flight in this way, once, and leaves every other one as it is |
| `ConnectionOutcomes.RetriedIfIdempotent` | cpp-driver/src/connection.cpp:76-84 | in every state of every run only idempotent requests have been told to retry and only the others have timed out; idempotence never changes |
| `ConnectionOutcomes.WriteTells` | cpp-driver/src/connection.cpp:278-325 | a cancelled request or one without a stream id leaves everything as it is; a failed encoding ends the request with the error of its kind; an accepted write tells nobody anything |
| `ConnectionOutcomes.SocketHasAll` | cpp-driver/src/connection.cpp:1045-1084 | after a flush, a flushing write and a finished write callback the socket has been given the encodings of all requests accepted so far; every other step gives it nothing |
| `ConnectionOutcomes.LinkFollowsMarks` | cpp-driver/src/connection.cpp:991-1002 | in every run without a failed assertion a READY connection is OVERWHELMED exactly when it is over the high mark and stays so until it is below the low mark; it becomes defunct exactly on a failed write, an undecodable message, a message on an unknown stream or a wrong one on the event stream |
| `Requests.StatesFollow` | cpp-driver/src/request_callback.cpp:78-168 | a request gets in flight only by being written, leaves as finished, or as cancelled once it was cancelled, and a cancelled one never comes back; cancelling keeps its place and its stream |
| `SslWriter.Encrypt` | cpp-driver/src/connection.cpp:1086-1137 | if no call of the session fails, the chunks passed to it concatenate to the buffers; all chunks but the last have 8192 bytes and none is empty; at the first failure nothing more is passed |
| `NumberLexeme.RecogniserIsExact` | src/wkt.rl:39 | the state machine accepts exactly the numbers of the grammar: sign, mantissa with or without a point, exponent |
| `WktAutomaton.RowEncoded` | src/wkt.cpp:18-119 | for every state and every character the packed tables encode the transition and the action of the readable automaton |
| `WktAutomaton.EofEncoded` | src/wkt.cpp:18-119 | the end-of-text table encodes what the automaton does at the end, in every state |
| `WktAutomaton.EffectEncoded` | src/wkt.cpp:240-338 | the action lists of the tables have the effects on the registers that the automaton names |
| `WktAutomaton.RunActions` | src/wkt.cpp:236-338 | the action loop performs the actions of a list in order |
| `WktLexers.Scan` | src/wkt.cpp:151-365 | the goto loop over the tables, from any position of any text, ends with the token of the specification in its registers |
| `WktLexers.Round` | src/wkt.cpp:168-354 | one round of the loop keeps the relation between the registers and what has been read of the token |
| `WktLexers.AtEof` | src/wkt.cpp:355-365 | the end-of-text part finishes the token that was begun |
| `WktLexers.WktLexer.NextToken` | src/wkt.cpp:132-373 | for every text and position: blanks are skipped and the longest keyword, mark or number is taken, else one invalid character; token and position do not depend on skip_number, which only decides whether the number is kept |
| `WktLexers.WktLexer.ReadAhead` | src/wkt.hpp:41-44 | a second lexer reads on from the position of the first and leaves it alone |
| `WktTokens.LongestWithin` | src/wkt.rl:38-58 | where the recogniser stops, the longest number of the specification is the longest part it accepted |
| `PolygonFormats.PolygonStarts` | src/serialization.hpp:120-130 | a polygon starts with the bytes 1, 3, 0, 0, 0, and then the number of its rings, least significant byte first |
| `PolygonFormats.RingsInOrder` | src/polygon.hpp:53-75 | the rings follow in order, each as the number of its points, least significant byte first, and their coordinates |
| `PolygonFormats.PointPlace` | src/polygon.hpp:58-62 | a point is the eight bytes of x and then the eight of y |
| `PolygonFormats.Uint32IsLittleEndian` | src/serialization.hpp:118-125 | the four bytes of a number, read least significant first, are the number modulo 2^32 |
| `PolygonFormats.DecodeIsLittleEndian` | src/serialization.hpp:147-155 | four bytes are read least significant first |
| `PolygonFormats.PointsTextJoins` | src/polygon.cpp:103-115 | the texts of points are separated by a comma and a blank |
| `PolygonFormats.PolygonTextReads` | src/polygon.cpp:91-120 | the text of an empty polygon, and that of two rings character by character |
| `Wkb.DecodeAt` | src/serialization.hpp:147-155 | a number read where one was written is that number modulo 2^32 |
| `PolygonBuilder.Polygon.Reset` | src/polygon.hpp:29-40 | the bytes are those of a polygon without rings |
| `PolygonBuilder.Polygon.StartRing` | src/polygon.hpp:49-56 | a ring of one or two points is refused and nothing changes; otherwise the open ring is closed and an empty one is open |
| `PolygonBuilder.Polygon.AddPoint` | src/polygon.hpp:58-62 | inside a ring the point joins it; outside one its bytes stand before the next ring and it is counted into that ring, and nothing else changes |
| `PolygonBuilder.Polygon.FinishRing` | src/polygon.hpp:72-82 | a ring that counts one or two points is refused and nothing changes; otherwise the count of the open ring, stray points before it included, is written into its place |
| `PolygonBuilder.Polygon.Finish` | src/polygon.hpp:64-67 | it succeeds unless the open ring counts one or two points, and then, without stray points, the bytes are exactly the WKB of the rings that were added |
| `PolygonLayout.CloseInside` | src/serialization.hpp:113-117 | overwriting the count at the start of the open ring, stray points included, closes it and changes no other byte |
| `PolygonBuilder.Polygon.CleanIsValid` | src/polygon.hpp:29-82 | without stray points the general layout is the WKB of the rings up to the open counters |
| `PolygonPrinter.ToWkt` | src/polygon.cpp:91-118 | the printed text is the WKT of the rings, read back from the bytes; an open ring is shown without its points |
| `PolygonBinary.CheckBinary` | src/polygon.cpp:120-170 | the bytes are accepted if and only if the header fits and the demand, summed from the words the loop really reads, fits the size |
| `PolygonSizes.SingleRingAccepted` | src/polygon.cpp:148-163 | every polygon of one ring is accepted |
| `PolygonSizes.RingsAccepted` | src/polygon.cpp:148-163 | a polygon whose first ring is long enough to be read for all counts is accepted if and only if the 32-bit words of its coordinates, doubled, claim no more coordinates than the other rings have |
| `PolygonSizes.TwoRingsAccepted` | src/polygon.cpp:148-163 | two rings are accepted if and only if the low half of the first coordinate, doubled in 32 bits, is at most twice the length of the second ring |
| `PolygonSizes.TwoRingsRefused` | src/polygon.cpp:148-163 | two triangles that are refused |
| `PolygonBinary.BinaryIterator.NextNumPoints` | src/polygon.cpp:255-266 | in turn it gives the count of the next ring, out of turn it fails and changes nothing |
| `PolygonBinary.BinaryIterator.NextPoint` | src/polygon.cpp:268-293 | in turn it gives the next point and moves on to the next ring or to the end, out of turn it fails and changes nothing |
| `PolygonBinary.ReadRings` | src/polygon.cpp:255-293 | the walk gives back the rings of the bytes if and only if no ring but the last is empty, and then ends at the end of the bytes |
| `PolygonGrammar.RingsCounted` | src/polygon.cpp:192-243 | a text has a derivation as a list of rings if and only if the left-to-right recogniser finds one, and all its derivations have the counted number of rings |
| `PolygonGrammar.RingsSound` | src/polygon.cpp:192-243 | what the recogniser accepts is the rendering of some list of rings, of the length it counted |
| `PolygonGrammar.RingsComplete` | src/polygon.cpp:192-243 | every rendering of a list of rings is accepted and counted |
| `PolygonGrammar.PrintedHasRings` | src/polygon.cpp:91-118 | printed text of any rings is in the language, with as many rings as were printed |
| `PolygonGrammar.PrintedIsEmpty` | src/polygon.cpp:184-187 | the text of a polygon without rings is the empty one |
| `PolygonText.CheckPoints` | src/polygon.cpp:200-226 | the inner loop accepts exactly the points of a ring: pairs of numbers, commas optional but never before the parenthesis |
| `PolygonText.CheckRings` | src/polygon.cpp:192-243 | the outer loop accepts and counts exactly the rings of the recogniser |
| `PolygonText.CheckText` | src/polygon.cpp:172-253 | for every text: it is accepted if and only if its tokens start with POLYGON EMPTY or with a list of rings, and the rings are counted |
| `PolygonText.CountPoints` | src/polygon.cpp:306-325 | the second lexer counts the points of the ring ahead and leaves the first where it is |
| `PolygonText.TextIterator.NextNumPoints` | src/polygon.cpp:295-331 | in turn it gives the count of the next ring; out of turn it fails, having taken one token from the lexer |
| `PolygonText.TextIterator.NextPoint` | src/polygon.cpp:333-366 | in turn it gives the next point and moves on to the next ring or to the end, out of turn it fails and changes nothing |
| `PolygonText.ReadRingsText` | src/polygon.cpp:295-366 | the walk over printed text gives back the rings if and only if no ring but the last is empty, and then ends at the end of the text |
| `PolygonRoundTrip.ReadBinary` | src/polygon.cpp:255-293 | the walk over the bytes of a finished polygon gives the rings that were added |
| `PolygonRoundTrip.ReadText` | src/polygon.cpp:172-253 | printing a finished polygon, validating the text and walking it gives the rings that were added |
| `PolygonRoundTrip.BothReadingsAgree` | src/polygon.cpp:91-366 | after finish both walks give the same verdict and ring count, and when no ring but the last is empty, both give the rings that were added, in order, with nothing left to read |
| `DataTypes.NamesAreDistinct` | cpp-driver/include/cassandra.h:516-543 | every simple type is found under the keyword that it prints |
| `ParserBase.SkipBlankAndComma` | cpp-driver/src/data_type_parser.hpp:47-63 | it stops at a character that is not blank, past at most one comma, and so moves on wherever the loop needs it to |
| `ParserBase.Cursor.SkipBlanksAndComma` | cpp-driver/src/data_type_parser.hpp:47-63 | the cursor loop computes that function |
| `CqlText.TypeParams` | cpp-driver/src/data_type_parser.cpp:165-192 | every parameter that is cut out is strictly shorter than the text, on every text; with it the recursion ends |
| `CqlText.ReadParam` | cpp-driver/src/data_type_parser.cpp:194-260 | one parameter lies between two positions of the text and takes at least one character where the loop needs progress |
| `CqlParser.ReadRawTypeParameters` | cpp-driver/src/data_type_parser.cpp:220-260 | the bracket-counting loop finds the closing bracket of the specification, or fails |
| `CqlParser.ReadParams` | cpp-driver/src/data_type_parser.cpp:165-192 | the loop over the parameters gives the list of the specification |
| `CqlParser.ParseCqlName` | cpp-driver/src/data_type_parser.cpp:65-158 | the cursor-based parser computes the specified parse of every text |
| `CqlRoundTrip.RoundTrip` | cpp-driver/src/data_type_parser.cpp:65-158 | parsing what to_string prints gives the same tree back, frozen flags included, at any depth |
| `CqlRoundTrip.RoundTripExactly` | cpp-driver/src/data_type.hpp:116-123 | for types whose user and custom types have proper names the round trip holds if and only if there is no custom part, every part has the right number of parameters and every user type is the one that the keyspace knows |
| `CqlRoundTrip.ParsedIsKnown` | cpp-driver/src/data_type_parser.cpp:65-158 | every result of the parser, on any text, has the shape that the round trip needs |
| `CqlRoundTrip.Reparse` | cpp-driver/src/data_type.hpp:183-200 | printing what was parsed from any text and parsing it again changes nothing |
| `CqlRoundTrip.CustomIsLost` | cpp-driver/src/data_type.hpp:163-165 | a custom type, whatever its class name, never parses back from what it prints |
| `CqlRoundTrip.CustomPartIsLost` | cpp-driver/src/data_type.hpp:163-165 | nor does a type with a custom part anywhere |
| `CqlRoundTrip.OddNameIsLost` | cpp-driver/src/data_type_parser.cpp:194-218 | a type with a user type whose name cannot be read as one name, at any depth, never parses back |
| `CqlRoundTrip.PrintBalanced` | cpp-driver/src/data_type.hpp:424-430 | the text of a type can stand inside brackets: its own are balanced outside of quotes |
| `ClassText.ReadPieces` | cpp-driver/src/data_type_parser.cpp:503-531 | every argument that is cut out is strictly shorter than the text |
| `ClassParser.HexToText` | cpp-driver/src/data_type_parser.cpp:48-63 | the loop decodes pairs of hexadecimal digits, or fails on an odd length or a bad digit |
| `ClassParser.ReadRawArguments` | cpp-driver/src/data_type_parser.cpp:588-621 | the parenthesis-counting loop finds the closing parenthesis and returns the slice of the original, which is too long |
| `ClassParser.GetTypeParams` | cpp-driver/src/data_type_parser.cpp:503-531 | the loop gives the argument texts of the specification |
| `ClassParser.GetNameAndTypeParams` | cpp-driver/src/data_type_parser.cpp:533-570 | the loop gives the field names, decoded, and the field texts of the specification |
| `ClassParser.ParseClassName` | cpp-driver/src/data_type_parser.cpp:286-411 | the cursor-based parser computes the specified parse with the over-long slices, on every text; ClassTypes, KindTypes and OuterTypes say what that is for the classes of the server |
| `ClassSlices.SlicesAreHarmless` | cpp-driver/src/data_type_parser.cpp:588-621 | whatever follows a complete class name, the parse with over-long slices fails when the exact one fails, and otherwise equals it if and only if no user type below has a keyspace with arguments |
| `ClassSuffixes.SuffixShows` | cpp-driver/src/data_type_parser.cpp:588-621 | text behind a complete class name that stands for a type changes the result if and only if the over-long slice of a keyspace that is reached is cut short by the end of the name, at any depth |
| `ClassSuffixes.PlainNeverReaches` | cpp-driver/src/data_type_parser.cpp:588-621 | a class name in which no keyspace has arguments is never changed by text behind it |
| `ClassSuffixes.SuffixIsIgnored` | cpp-driver/src/data_type_parser.cpp:588-621 | the result is the same with any text behind a complete class name if and only if the name stands for no type or no keyspace slice reaches its end |
| `ClassSlices.BareSuffix` | cpp-driver/src/data_type_parser.cpp:286-411 | text behind a name without arguments, starting with a comma or a parenthesis, changes the result if and only if it is the tuple class, or it is the user class and the text holds a whole keyspace, name and field list |
| `ClassSlices.BareInside` | cpp-driver/src/data_type_parser.cpp:503-531 | a name without arguments inside a collection or tuple is parsed as if it stood alone |
| `ClassBareNames.BareItems` | cpp-driver/src/data_type_parser.cpp:286-411 | a list, set or map of names without arguments parses to its first items, each parsed alone, ignores further ones, and is no type if there are too few |
| `ClassBareNames.EmptyTupleInside` | cpp-driver/src/data_type_parser.cpp:286-411 | a bare tuple class is the empty tuple, alone and inside a list |
| `ClassBareNames.WrappedTupleIsCustom` | cpp-driver/src/data_type_parser.cpp:382-400 | a tuple inside FrozenType or ReversedType parses to a custom type, because the outer name is asked whether it is a tuple |
| `ClassBareNames.BareUserTakes` | cpp-driver/src/data_type_parser.cpp:286-411 | a bare user class is no type, and takes the text behind it as its arguments after a comma or a closing parenthesis |
| `ClassSlices.LongIsLonger` | cpp-driver/src/data_type_parser.cpp:588-621 | the slice of the arguments is too long wherever anything follows them |
| `ClassRoundTrip.HexRoundTrip` | cpp-driver/src/data_type_parser.cpp:37-63 | from_hex undoes the hexadecimal encoding of any bytes |
| `ClassRoundTrip.SimpleByClass` | cpp-driver/include/cassandra.h:516-543 | no two classes of the table clash: every simple type is found under its class name |
| `ClassLiterals.ClassTypes` | cpp-driver/include/cassandra.h:516-538 | each of the twenty class names of the header, spelled out, parses to its type |
| `ClassLiterals.ClassesInAnyCase` | cpp-driver/src/data_type_parser.cpp:405-410 | the case of a class name does not matter for simple types |
| `ClassLiterals.KindTypes` | cpp-driver/src/data_type_parser.cpp:304-335 | the list, set, map and tuple classes, spelled out, around the class names of any types parse to the type of these |
| `ClassLiterals.OuterTypes` | cpp-driver/src/data_type_parser.cpp:262-272 | the frozen, reversed and user type classes, spelled out: a frozen list, a reversed simple type, a user type with its keyspace and hex name |
| `ClassLiterals.WrappedSimple` | cpp-driver/src/data_type_parser.cpp:286-300 | a simple class inside the frozen or the reversed class is the simple type |
| `ClassLiterals.HexAlphabet` | cpp-driver/src/data_type_parser.cpp:37-46 | the sixteen digits in either case have their values and no other character has one |
| `ClassBareNames.WrapsOne` | cpp-driver/src/data_type_parser.cpp:291-296 | the frozen and reversed classes around no class or around several are no type |
| `ClassBareNames.BareTuple` | cpp-driver/src/data_type_parser.cpp:387-403 | the items of a tuple of bare names are parsed as if each stood alone |
| `CqlKeywords.KeywordTypes` | cpp-driver/include/cassandra.h:516-538 | each of the twenty-one keywords of the header, spelled out, in any case, parses to its type |
| `CqlKeywords.KindKeywords` | cpp-driver/src/data_type_parser.cpp:79-124 | list, set, map and tuple, spelled out, with any types in angle brackets parse to the type of these |
| `CqlKeywords.FrozenKeyword` | cpp-driver/src/data_type_parser.cpp:126-133 | frozen around a collection, tuple or user type parses to that type frozen |
| `CqlKeywords.PartsAreCounted` | cpp-driver/src/data_type_parser.cpp:79-124 | a list or set of any types but one, and a map of any but two, is no type; a tuple may have any number from one on |
| `CqlKeywords.OtherWords` | cpp-driver/src/data_type_parser.cpp:148-157 | any other word is a user type of the keyspace with the fields known to it |
| `CqlKeywords.QuotedClass` | cpp-driver/src/data_type_parser.cpp:143-146 | a class name in single quotes parses to the custom type of exactly that name |
| `CqlKeywords.EmptyKeyword` | cpp-driver/src/data_type_parser.cpp:139-141 | empty is the custom type of the empty class |
| `ParserBase.IdentifierAlphabet` | cpp-driver/src/data_type_parser.hpp:69-73 | the characters of names are the ASCII letters and digits and - + . _ & |
| `ClassRoundTrip.ClassNameRoundTrip` | cpp-driver/src/data_type_parser.cpp:286-411 | the class name of any type tree, nested and frozen, parses back to the tree; the names themselves are spelled out in ClassTypes, KindTypes and OuterTypes |
| `ClassRoundTrip.KeyspaceSwallows` | cpp-driver/src/data_type_parser.cpp:475-531 | a family of texts on which the over-long slice gives a wrong keyspace |
| `ValueRoundTrip.BodyRoundTrip` | cpp-driver/src/decoder.cpp:138-168 | a nested value that fits a message is read back from its bytes if and only if no collection in it holds a null item; unset fields read as null |
| `ValueRoundTrip.ItemsRoundTrip` | cpp-driver/src/collection_iterator.cpp:21-39 | the items of a collection come back in order and use up its bytes |
| `ValueRoundTrip.FieldsRoundTrip` | cpp-driver/src/collection_iterator.cpp:41-47 | the fields of a tuple or user type come back in order and use up its bytes |
| `ValueRoundTrip.BodyIsNotNull` | cpp-driver/src/collection.cpp:119-123 | no body of bytes reads as null, so a null item is not read back |
| `ValueReadBacks.BodyReadsBack` | cpp-driver/src/decoder.cpp:138-168 | what is read from the bytes of any value that fits a message, null items included: they read as an empty value or the empty tuple, or make the whole unreadable where a collection or fields are expected |
| `ValueReadBacks.EncodeAndRead` | cpp-driver/src/abstract_data.cpp:55-59 | encoding a tuple or user type and reading it through the iterators gives the value back if and only if it holds no null item, and in every case what BodyReadsBack says |
| `ValueReadBacks.EncodeAndReadCollection` | cpp-driver/src/collection.cpp:177-199 | the same for a collection with its length, with nothing left of the input |
| `ValueBuffers.Collection.BytesOf` | cpp-driver/src/collection.cpp:169-175 | the bytes of a collection are those of the value appended item by item |
| `ValueBuffers.Collection.GetItemsSize` | cpp-driver/src/collection.cpp:201-209 | the size is the number of bytes written |
| `ValueBuffers.Collection.EncodeItems` | cpp-driver/src/collection.cpp:211-219 | the items with their lengths fill the buffer exactly to its end |
| `ValueBuffers.Collection.Encode` | cpp-driver/src/collection.cpp:169-175 | the buffer is exactly the bytes of the collection; its first four, most significant first, are the number of items, or of pairs of a map |
| `ValueBuffers.Collection.EncodeWithLength` | cpp-driver/src/collection.cpp:177-199 | the buffer is exactly the length, most significant byte first, and the bytes |
| `ValueBuffers.Collection.Append` | cpp-driver/src/collection.cpp:125-141 | an item is appended with the bytes of its value, nested ones included |
| `ValueBuffers.Collection.AppendNull` | cpp-driver/src/collection.cpp:119-123 | a null item is kept as an empty one |
| `ValueBuffers.AbstractData.Check` | cpp-driver/src/abstract_data.hpp:156-167 | an index out of bounds is found before a value of the wrong type |
| `ValueBuffers.AbstractData.SetElement` | cpp-driver/src/abstract_data.cpp:27-31 | an index out of bounds or a value of the wrong type is refused and nothing changes |
| `ValueBuffers.AbstractData.SetCollection` | cpp-driver/src/abstract_data.cpp:33-41 | an index out of bounds, a value of the wrong type or a map with a key that has no value is refused, in this order, and nothing changes |
| `ValueBuffers.AbstractData.GetBuffersSize` | cpp-driver/src/abstract_data.cpp:71-82 | the size is the number of bytes written |
| `ValueBuffers.AbstractData.EncodeBuffers` | cpp-driver/src/abstract_data.cpp:84-93 | the fields with their lengths fill the buffer exactly to its end, unset ones as null |
| `ValueBuffers.AbstractData.Encode` | cpp-driver/src/abstract_data.cpp:55-59 | the buffer is exactly the body of the tuple |
| `ValueBuffers.AbstractData.EncodeWithLength` | cpp-driver/src/abstract_data.cpp:61-69 | the buffer is exactly the length, most significant byte first, and the body |
| `ValueLayout.Int32IsBigEndian` | cpp-driver/src/serialization.hpp:102-108 | the four bytes of a number, read most significant first, are the number modulo 2^32 |
| `ValueLayout.ToInt32IsBigEndian` | cpp-driver/src/serialization.hpp:110-116 | four bytes are read most significant first in two's complement |
| `ValueLayout.Int32Landmarks` | cpp-driver/src/serialization.hpp:102-108 | the bytes of 0, 1, minus one and 0x01020304 |
| `ValueLayout.Int32Shift` | cpp-driver/src/serialization.hpp:102-108 | another digit to the base 256 moves the others one place to the left |
| `ValueLayout.Int32Onto` | cpp-driver/src/serialization.hpp:102-116 | writing what was read from any four bytes gives these bytes |
| `ValueLayout.CollectionStartsWithCount` | cpp-driver/src/collection.cpp:169-175 | a collection starts with the number of its items, or of its pairs if it is a map |
| `ValueLayout.ItemsInOrder` | cpp-driver/src/collection.cpp:211-219 | the items follow in order, each behind its length |
| `ValueLayout.FieldIsLengthAndBytes` | cpp-driver/src/abstract_data.cpp:84-93 | a field is its length and its bytes, and four bytes of 255 exactly if it is null or unset |
| `ValueLayout.FieldsJoin` | cpp-driver/src/abstract_data.cpp:84-93 | the fields of a tuple follow in order |
| `ValueLayout.StepTakesLength` | cpp-driver/src/decoder.cpp:138-168 | reading a value takes four bytes for the length, gives null if it is negative, and else takes as many bytes as it says, of a collection the count first |
| `ValueLayout.KeysAndValuesInTurn` | cpp-driver/src/collection_iterator.cpp:29-39 | the items of a map are of its key type and its value type in turn |
| `ValueLayout.FieldsAsDeclared` | cpp-driver/src/collection_iterator.cpp:41-47 | the fields of a tuple or user type are of the declared types in the declared order |
| `ValueIterators.DecodeValue` | cpp-driver/src/decoder.cpp:138-168 | one value is taken off the input: null for a negative length, else the bytes of that length and the count of a collection; StepTakesLength spells it out |
| `ValueIterators.CollectionIterator.Next` | cpp-driver/src/collection_iterator.cpp:21-39 | one item further, keys and values of a map in turn, until the count is reached |
| `ValueIterators.TupleIterator.Next` | cpp-driver/src/collection_iterator.cpp:41-47 | one field further, until the types are used up |
| `ValueIterators.ReadCollection` | cpp-driver/src/collection_iterator.cpp:21-39 | going through the iterator gives the items of the specification |
| `ValueIterators.ReadTuple` | cpp-driver/src/user_type_field_iterator.cpp:23-29 | going through the iterator gives the fields of the specification |
| `ValueIterators.ReadValue` | cpp-driver/src/collection_iterator.cpp:21-47 | reading through iterators as deep as the type goes gives the value of the specification |
| `QueryPlans.LocalHostsFirst` | cpp-driver/src/dc_aware_policy.cpp:159-166 | the hosts handed out are the local ones that are up, each as often as listed, and then remote ones |
| `QueryPlans.TimesHandedOut` | cpp-driver/src/dc_aware_policy.cpp:159-197 | how often a plan hands out a host, exactly: as often as it is listed as local, and once more if the remote part meets it |
| `QueryPlans.NoneTwice` | cpp-driver/src/dc_aware_policy.cpp:159-197 | no host is handed out twice, whoever is up, if and only if no local host is listed twice or met again in the remote part |
| `QueryPlans.EachHostOnce` | cpp-driver/src/dc_aware_policy.cpp:159-197 | with the lists in order every local host that is up is handed out exactly once and no host twice |
| `QueryPlans.RemoteHostsLast` | cpp-driver/src/dc_aware_policy.cpp:168-197 | what follows the local hosts is up and of a remote data center, and there is nothing when local consistency skips them |
| `QueryPlans.FewRemoteHosts` | cpp-driver/src/dc_aware_policy.cpp:177-197 | after the local hosts at most used_hosts_per_remote_dc hosts of each data center are handed out, exactly so many or all of them if they are up and not skipped, and with the local list in order none of a remote one before |
| `QueryPlans.RemoteHostsMet` | cpp-driver/src/dc_aware_policy.cpp:177-197 | after the local hosts a plan meets min(used_hosts_per_remote_dc, listed) hosts of each remote data center, all of them once if the limit allows, and none when remote data centers are skipped |
| `QueryPlans.PlansStartApart` | cpp-driver/src/dc_aware_policy.cpp:63-68 | n consecutive plans over n local hosts, all up, start at n different hosts |
| `QueryPlans.FullWindow` | cpp-driver/src/dc_aware_policy.cpp:140-142 | n hosts in a circle from any index are the list rotated |
| `HostLists.AddHost` | cpp-driver/src/host.cpp:21-32 | the loop replaces the host with the same address in its place, or appends |
| `HostLists.RemoveHost` | cpp-driver/src/host.cpp:34-42 | the loop removes the first host with the address, or nothing |
| `HostLists.InsertedSorted` | cpp-driver/src/dc_aware_policy.cpp:131-137 | a new data center goes to its place in the order of the names |
| `HostLists.AddedSound` | cpp-driver/src/dc_aware_policy.cpp:70-84 | whatever host comes, the remote lists stay in order: data centers sorted and distinct, every host under its own, no address twice in a list, the local data center not among them |
| `HostLists.RemovedSound` | cpp-driver/src/dc_aware_policy.cpp:86-93 | whatever host goes, the remote lists stay in order |
| `HostLists.AddedPlaced` | cpp-driver/src/dc_aware_policy.cpp:79-83 | a host that comes keeps the local list in order if and only if it is not listed yet when it is local, and the host that decides the local data center finds no host listed before it |
| `HostLists.RemovedPlaced` | cpp-driver/src/dc_aware_policy.cpp:86-93 | a host that goes keeps the local list in order |
| `HostLists.ChangesPlaced` | cpp-driver/src/dc_aware_policy.cpp:70-101 | over any run of hosts coming and going the remote lists are in order, and the local one throughout if and only if every host that comes fits |
| `HostLists.ListsForPlans` | cpp-driver/src/dc_aware_policy.cpp:149-157 | what the plans need of the lists follows |
| `HostLists.PlansAfterChanges` | cpp-driver/src/dc_aware_policy.cpp:159-197 | after any run from a new policy, a host that is up is handed out as often as it is listed as local and once more if the remote part meets it; if every host fitted, no host twice and every local one exactly once |
| `HostLists.AddedTwice` | cpp-driver/src/dc_aware_policy.cpp:79-80 | a local host that comes although it is listed is handed out twice by every plan |
| `HostLists.ComesBackAsRemote` | cpp-driver/src/dc_aware_policy.cpp:70-93 | a host without a data center that came before the local one was known cannot be removed any more, comes back as a remote host and is handed out twice |
| `DcAwarePolicies.DCAwarePolicy.AddHostToDc` | cpp-driver/src/dc_aware_policy.cpp:103-113 | the host joins the list of its data center, in the place of one with its address; a new data center goes to its place among the keys |
| `DcAwarePolicies.DCAwarePolicy.OnAdd` | cpp-driver/src/dc_aware_policy.cpp:70-84 | the first data center seen becomes the local one; the host goes to the local list or to that of its data center; the host is then listed there; the local list stays in order if and only if the host fits |
| `DcAwarePolicies.DCAwarePolicy.OnRemove` | cpp-driver/src/dc_aware_policy.cpp:86-93 | with the local list in order the host is gone from the list of its data center, every other host stays in its list in its order, and what was in order stays so |
| `HostChanges.RemovedIsGone` | cpp-driver/src/dc_aware_policy.cpp:86-93 | the list of the data center of a removed host is the hosts with other addresses in their order; every other list, and the data centers, stay |
| `HostChanges.AddedIsListed` | cpp-driver/src/dc_aware_policy.cpp:70-84 | an added host is at the end of the list of its data center, or in the place of its namesake there; every other list stays |
| `HostChanges.RemovedUndoesAdded` | cpp-driver/src/dc_aware_policy.cpp:70-93 | a host that comes and goes again leaves every list as it was |
| `HostChanges.RemovedRestores` | cpp-driver/src/dc_aware_policy.cpp:70-93 | and nothing at all has changed if its data center was known |
| `HostChanges.ComesBackLast` | cpp-driver/src/dc_aware_policy.cpp:95-101 | a host that goes down and comes up again is the last of its list |
| `HostChanges.GoneIsNotHandedOut` | cpp-driver/src/dc_aware_policy.cpp:86-93 | a plan made after a host was removed hands it out zero times |
| `HostChanges.LastChangeShows` | cpp-driver/src/dc_aware_policy.cpp:63-101 | after any history in which every host fitted, a plan made after a removal hands the host out zero times, and one made after the host was added as a local one exactly once if it is up |
| `DcAwarePolicies.DCAwarePolicy.NewQueryPlan` | cpp-driver/src/dc_aware_policy.cpp:63-68 | the plan has all candidates ahead of it, from the counter on, and the counter moves on by one |
| `DcAwarePolicies.DCAwareQueryPlan.ComputeNext` | cpp-driver/src/dc_aware_policy.cpp:159-197 | the next candidate that is up is given, the ones before it are used up, and none is given once there are no more |
| `DcAwarePolicies.DCAwareQueryPlan.Exhaust` | cpp-driver/src/dc_aware_policy.cpp:159-197 | a whole plan gives the candidates that are up, in order, and then none |
| `DcAwarePolicies.WholePlan` | cpp-driver/src/dc_aware_policy.cpp:63-68 | a new plan followed to its end gives the local hosts that are up, each as often as listed, then hosts of remote data centers, at most the limit of each, exactly the limit or all of them if they are up, and none when they are skipped; with the local list in order no host twice and every local one that is up exactly once |
| `DcAwarePolicies.FirstHosts` | cpp-driver/src/dc_aware_policy.cpp:63-68 | n plans in a row over n local hosts, all up, start at n different hosts |
| `DcAwarePolicies.FollowAmidChanges` | cpp-driver/src/dc_aware_policy.cpp:149-166 | while hosts come and go between the calls, the local hosts that a plan gives are those of the list as it was when the plan was made |
| `RefCounting.RefCounted.DecRef` | cpp-driver/src/ref_counted.hpp:46-53 | the last reference gives the memory back |
| `CopyOnWrite.CopyOnWritePtr.constructor` | cpp-driver/src/copy_on_write_ptr.hpp:29-30 | a new pointer sees its value and no other pointer changes |
| `CopyOnWrite.CopyOnWritePtr.CopyOf` | cpp-driver/src/copy_on_write_ptr.hpp:35-36 | the copy sees what its original sees |
| `CopyOnWrite.CopyOnWritePtr.Assign` | cpp-driver/src/copy_on_write_ptr.hpp:43-46 | the pointer sees what the other sees; no third one sees a difference; the old block is given up once |
| `CopyOnWrite.CopyOnWritePtr.Detach` | cpp-driver/src/copy_on_write_ptr.hpp:71-76 | the pointer is alone on its block afterwards and no pointer sees a difference |
| `CopyOnWrite.CopyOnWritePtr.Write` | cpp-driver/src/copy_on_write_ptr.hpp:56-68 | a change through one pointer is seen by that pointer and by no other |
| `CopyOnWrite.CopyOnWritePtr.Drop` | cpp-driver/src/ref_counted.hpp:92-96 | giving a pointer up changes what no other pointer sees, and its block goes with the last one |
| `CopyOnWrite.CopyOnWritePtr.Read` | cpp-driver/src/copy_on_write_ptr.hpp:52-63 | reading does not detach |
| `CopyOnWrite.ChangesPassBy` | cpp-driver/src/dc_aware_policy.cpp:70-93 | however often a list is changed, a copy that was taken of it stays as it was |
| `CopyOnWrite.Sharing.Alone` | cpp-driver/src/copy_on_write_ptr.hpp:71-76 | a block with one reference is seen by one pointer only |
| `ControlStartup.Lower` | cpp-driver/src/control_connection.cpp:241-253 | every refused version is followed by a lower, positive one |
| `ControlStartup.VersionLadder` | cpp-driver/src/control_connection.cpp:242-256 | 0x42, 0x41, 4, 3, 2, 1 is the order in which versions are tried, and below DSE each is one less than the one before |
| `ControlStartup.StepsFromTheTop` | cpp-driver/src/constants.hpp:103-108 | four steps down from the highest DSE version, three from the highest Cassandra version |
| `ControlStartup.StartupPlan.ComputeNext` | cpp-driver/src/control_connection.cpp:70-76 | the hosts in a circle from any start index, each once, and then none |
| `ControlStartup.ControlConnection.constructor` | cpp-driver/src/control_connection.cpp:148-167 | the first attempt, or the error when there is no host |
| `ControlStartup.ControlConnection.ReconnectNext` | cpp-driver/src/control_connection.cpp:184-214 | the next host of the plan is tried, or the error is reported once |
| `ControlStartup.ControlConnection.LowerVersion` | cpp-driver/src/control_connection.cpp:241-253 | the version is strictly lowered |
| `ControlStartup.ControlConnection.OnClose` | cpp-driver/src/control_connection.cpp:225-289 | a refused protocol leads to the same host with the lowered version if and only if the version is above 1, any other failure to the next host of the plan if and only if there is one, and bad credentials and SSL errors end it; otherwise the one error that belongs to the reason is reported |
| `ControlStartup.ControlConnection.Handle` | cpp-driver/src/control_connection.cpp:184-289 | whatever happens to the attempted connection leaves one more attempt, a ready or closed connection, or the error that belongs to the reason |
| `ControlStartup.ControlConnection.Close` | cpp-driver/src/control_connection.cpp:169-175 | closing keeps the invariant of the attempts |
| `ControlStartup.ControlConnection.Start` | cpp-driver/src/control_connection.cpp:184-289 | in every run of events the attempts are at most the hosts plus the downgrade steps, and within that many events the run is ready, closed or has reported one error, which is that of the last event; that no version is left is reported only at version 1 or below, and that no host is left only after all were handed out |
| `ControlStartup.ControlConnection.EveryHostTried` | cpp-driver/src/control_connection.cpp:189-199 | that no host is available is reported only after every host was tried exactly once |
| `Buffers.Buffer.FromBytes` | cpp-driver/src/buffer.hpp:33-53 | the buffer holds the bytes, inline up to 16 and else in a block with one reference |
| `Buffers.Buffer.CopyOf` | cpp-driver/src/buffer.hpp:55-58 | the copy holds the same bytes and the counts of the blocks stay the numbers of live buffers on them |
| `Buffers.Buffer.Take` | cpp-driver/src/buffer.hpp:197-212 | the new reference is taken before the old one is given up; only these two counts change, and a block is freed exactly when its count reaches zero |
| `Buffers.Buffer.Copy` | cpp-driver/src/buffer.hpp:197-212 | the counts of all blocks stay the numbers of live large buffers on them |
| `Buffers.Buffer.Assign` | cpp-driver/src/buffer.hpp:60-63 | the same, also for a buffer assigned to itself; no other buffer changes |
| `Buffers.Buffer.Destroy` | cpp-driver/src/buffer.hpp:65-69 | the last buffer on a block frees it, once; no other buffer changes |
| `Buffers.Buffer.Write` | cpp-driver/src/buffer.hpp:71-75 | a write within bounds changes the bytes it names, in this buffer and in those that share its block |
| `Buffers.Pool.InUse` | cpp-driver/src/buffer.hpp:197-212 | a block that a live buffer is on has a reference and was not freed |

## Left out

- libuv sockets, timers, heartbeats, the SSL handshake and authentication: input and output, and foreign calls. Each flushed batch gets at most one write callback, and none after the close callback.
- `StreamManager`: the stream id that a write gets is a parameter that is free in the table, or none when the table is full.
- Encoding of requests and decoding of frame headers: what a write encodes to and which messages a read holds are parameters.
- `LineString` and `Point`: a line string is a single ring with the same builder, printer, validator and iterators, and a point is one of its points.
- Date ranges, JSON graph building and the C interface that forwards to the classes.
- Foreign byte order: the code reads it without swapping.
- Formatting and parsing of doubles: `Codec` takes the two as functions that are inverse on finite doubles and yield numbers of the grammar.
- A polygon with 2^32 points or rings, where the counters wrap around: `Countable` excludes it from the readers; the builder models the wrap-around.
- `parse_with_composite` of the class-name parser and the composite comparators.
- Protocol versions 1 and 2 of the collection encoding, with 16-bit lengths.
- The encoding cache. What the type checks of `set` say is a parameter; those of `append` are not modelled.
- 32-bit overflow of the item count of a map while it is read.
- `distance()`: it looks at the first hosts of each data center, while the plan rotates.
- Locks around the map of data centers: the policy is modelled as sequential steps.
- Wrap-around of the `size_t` index of the policy and of the startup plan.
- Reconnects of a control connection that has been ready, and the refresh of schema and hosts.
- DcAwarePolicies.DCAwarePolicy.OnAdd: the lists are values here; that the pointers behave like values is proved in `CopyOnWrite`, so sharing between plans and policy is not repeated.
- ValueIterators.DecodeValue: asks that an announced length lies within the input (`Sized`), which the original takes for granted; past the end it would read foreign memory.
- ValueIterators.CollectionIterator.Next: asks the same.
- ValueIterators.TupleIterator.Next: asks the same.
- CqlRoundTrip.RoundTripExactly: leaves out types with a missing part, whose `to_string` would follow a null pointer, and names that CQL cannot declare, unless `OddNameIsLost` covers them.
- PolygonSizes.RingsAccepted: leaves out polygons with more than four rings for each point of the first one, whose counts are read from the rings that follow; `CheckBinary` covers them over the bytes.
- PolygonText.TextIterator.NextPoint: on printed text only; on other text the assertions of the original are its only check.
- Buffers.Buffer.FromBytes: `Buffer(size)` leaves its bytes uninitialised; they are given as a parameter.
