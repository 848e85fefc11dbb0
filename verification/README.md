# langsvr: a verified model

langsvr is a C++ library for the Language Server Protocol, with a Go program that generates its
protocol types. This project models its core in Dafny and proves what that core is for. Everything is
stated for all inputs, all schemas, all runs; the conditions that appear are the exact ones under which
the code does what it should, and most results are equivalences.

`dafny verify dfyconfig.toml` checks the whole project.

## What is modelled

**The codec** (`Json`, `Schemas`, `Decoding`, `Meaning`, `Decoder`, `Encoding`, `Rendering`, `Encoder`,
`RoundTrip`, `Recoding`, `Equality`, `ComparedRoundTrip`, `LspSchemas`). A schema datatype stands for all
generated types: structures with tag, optional and required members and bases, enums, vectors, tuples,
string maps, OneOf, aliases, recursive through names. `Decoder` and `Encoder` are the code's own loops and
early returns; they are proved to compute `Decoding.Decoded` and `Encoding.Encoded`. Independently of both,
`Decoding.Conforms` says which JSON values represent a value of a type, `Meaning.Represents` which value
that is, over whatever object it is decoded into, `Rendering.Renders` what an object is written as, and
`RoundTrip.Settled` which objects survive. The main results are: decoding succeeds exactly on the conforming
values and leaves exactly the value represented; encoding makes exactly what renders the object; an object
survives encoding and decoding exactly when it is settled; and with alternatives that keep apart, exactly
when it can be encoded. What was decoded can always be encoded again, and `Recoding` says from which JSON
values it then survives. Doubles are IEEE 754 binary64 patterns, so that comparing is weaker than being the
same: two objects compare equal exactly when neither holds an empty OneOf or a NaN and they differ only in
the signs of zeros, and what comes back compares equal exactly when the object is settled and equals itself.

**Framing** (`Strings`, `Framing`). Length-prefixed messages in 64-bit arithmetic over an advancing reader
and an appending writer, with the in-place `ReplaceAll` that error texts use. `Framing.Reads` is the
specification of one read; it has exactly one outcome, frames are read back exactly when their length fits
64 bits, and no cut frame is read. The bytes that are written are stated digit by digit.

**The session** (`Messages`, `Sessions`, `Effects`, `Network`, `Delivery`, `Progress`). What the messages
hold, and what any message is taken for, is stated member by member. One session is a class whose sender and
handlers are arbitrary finite trees of calls back into it (`Sessions.Foreign`), so re-entrancy of any depth
is covered. `Sessions.Does` says what each call makes of the session, and `Sessions.Runs` that foreign code
goes from state to state by its calls, in their order; every method is proved to do just that, `Effects`
shows that it is determined and that no call is lost. Ghost state records what happened, with the messages
that senders and handlers were given; `Sessions.Good` holds after every call and `Sessions.Later` relates
the states before and after, which are linked by `Sessions.Move`s. `Network` joins two sessions by queues.
Its actions are made of the same moves, and a request stays open while it is handled, so that both sides may
go on in every way before it is answered. It proves, over every interleaving, where each request is and that
a promise is only ever set with the peer's answer to that very request. `Delivery` goes back to the steps of
the run: a handler is given the method and the parameters of the step that asked, notifications arrive in
the order in which they were told, and a promise is what the step that answered answered. `Progress` shows
that whatever has happened, a request that was not refused or left without a reply can still be settled.

**The block allocator** (`Arena`, `PointerLists`, `Allocator`, `Lifetimes`, `ManyAllocators`). Bump
allocation over linked blocks; the chunks of object pointers are allocated out of the same blocks, at
addresses that are regions of a block. Iteration refines an index into the sequence of created objects, also
while the loop body creates more. `Lifetimes` follows objects and blocks over any run of several allocators,
and `ManyAllocators.World` executes those runs: each of its methods calls the allocators' own and is proved
to take exactly the step of the lifetime model, on disjoint memory.

**Owning pointers** (`OwningCells`, `Places`, `Populations`, `CellEffects`, `NestedCells`). OneOf and
Optional cells over an explicit heap; a cell is named by the path that leads to it, from a cell of the
population through the members of payloads. Every operation, on cells at any depth, keeps the invariant that
each payload on the heap is owned exactly once, and acts on the values as the same operation on plain nested
values would; `CellEffects` reads off what each cell then holds.

**The generator's passes** (`Paths`, `Walks`, `Ordering`, `StructureOrder`, `AliasOrder`). What a type is
directly built from, reachability through that, the depth-first order of structures on a graph that may be
cyclic, and the stack-based order of aliases; each order is also stated exactly, as a walk of `Walks`.

### Where the code differs from what one may expect

* `CreateFile`, `RenameFile` and `DeleteFile` write their tag and then the `kind` string of their base,
  which replaces it, so that the base has to hold the tag. `RoundTrip.RoundTripIff` demands that wherever such
  an object occurs; `RoundTrip.TagTwiceRoundTripIff` and `LspSchemas.CreateFileRoundTrip` state it for the
  object itself.
* A value that was decoded may change its type when it is encoded and decoded again, since a member that is
  ignored is not written: a `DocumentFilter` for notebook cells with a `scheme` of null comes back as a filter
  for text documents (`Recoding.DecodedSurvivesIff`, `LspSchemas.CellFilterChangesType`).
* A structure that a OneOf lists after one of its own bases is always decoded as the base:
  `RoundTrip.DerivedAfterBaseIsLost` (`TextEdit` before `AnnotatedTextEdit`).
* `LSPAny` tries `Integer` before `Uinteger`: `LspSchemas.LspAnyUinteger`.
* A OneOf that holds nothing is unequal to everything, itself included, and so is a `Decimal` that is NaN
  (`Equality.EqualToItselfIff`); encoding an empty OneOf yields a result that is neither success nor failure.
* The two zeros compare equal though they differ, and a NaN survives the round trip though what comes back
  compares unequal: `LspSchemas.SignedZerosCompareEqual`, `LspSchemas.NaNComesBackUnequal`.
* `TIterator::operator--` steps back one object too far when it crosses a chunk boundary, and does nothing
  at the end, so that it does not undo the step there: `PointerLists.PrevUndoesNextIff`.
* Assigning a OneOf or an Optional to itself empties it; a moved-from OneOf keeps its kind; and OneOf has
  no move assignment, so that assigning from an rvalue copies (`Populations.Population`).
* Assigning to a cell from a cell below it reads deleted memory, and moving into a cell from a cell above it
  leaks, and so does making a struct for a cell from a member moved out of a cell above it:
  `NestedCells.ReadableAfterResetIff`, `NestedCells.MovedIntoItselfIsLost`, `NestedCells.SetFromAboveIsLost`.
* The alias order is dependency-first only when each alias's dependencies come later in the input:
  `AliasOrder.SortTypeAliases`.
* A body whose length needs more than 64 bits is written but not read back: `Framing.FrameRoundTripIff`.

## Model

| member | source | states |
|---|---|---|
| Decoder.MatchKind | src/lsp/lsp.cc.tmpl:46-55 | succeeds exactly when the member `kind` is present and is the wanted string; every failure has a reason |
| Decoder.DecodeEnum | src/lsp/lsp.cc.tmpl:73-86 | assigns the first enumerator whose literal equals the value read through the accessor of the base type, or fails with a reason |
| Decoder.DecodePrimitive | src/lsp/decode.cc:32-79 | reading through the accessor and assigning leaves exactly the specified value, or the object as it was with a reason when there is none |
| Decoder.Decode | src/lsp/lsp.cc.tmpl:123-166 | terminates on every JSON value and every recursive schema; leaves exactly the specified value or fails, with a non-empty reason, exactly when there is none |
| Decoder.DecodeVector | include/langsvr/lsp/decode.h:71-87 | all elements decoded in order into what the vector held or fresh elements, or the first failure, never with an empty reason |
| Decoder.DecodeTuple | include/langsvr/lsp/decode.h:89-119 | the test `error.empty()` decides correctly: success exactly when the lengths agree and every element decodes |
| Decoder.DecodeMap | include/langsvr/lsp/decode.h:121-141 | whatever order the names come in, the entries named are decoded over those that were there and the others stay |
| Decoder.DecodeOneOf | include/langsvr/lsp/decode.h:143-161 | holds the first alternative that decodes, decoded afresh; a failed match leaves the object alone |
| Decoder.DecodeStruct | src/lsp/lsp.cc.tmpl:123-166 | tag, members and bases are all read from one object; success leaves exactly the specified structure |
| Decoder.DecodeFields | src/lsp/lsp.cc.tmpl:133-157 | every member decoded into its own field, absent optional ones untouched |
| Decoder.DecodeBases | src/lsp/lsp.cc.tmpl:159-163 | every base decoded from the same object into its own subobject |
| Decoder.DecodeField | src/lsp/lsp.cc.tmpl:134-156 | an optional member is decoded into a fresh value and may be missing, a required one is decoded in place and may not |
| Decoding.DecodedIffConforms | src/lsp/lsp.cc.tmpl:123-166 | decoding succeeds exactly on the values that conform to the schema, whatever object it decodes into |
| Decoding.DecodedStructIffConforms | src/lsp/lsp.cc.tmpl:123-166 | decoding a structure succeeds exactly when the members of it and of all its direct and indirect bases conform |
| Decoding.ConformsToBases | src/lsp/lsp.cc.tmpl:159-163 | the base-by-base checks of the code amount to the condition over the whole closure of bases |
| Decoding.FirstMatch | include/langsvr/lsp/decode.h:143-161 | the alternative held conforms, was decoded afresh, and no alternative before it conforms, also where types repeat |
| Meaning.DecodedIffRepresents | src/lsp/lsp.cc.tmpl:123-166 | decoding leaves x exactly when x is what the JSON value says over the object it is decoded into: a number is what its accessor reads, an enumerator the first whose literal the value is, and so on through vectors, tuples, maps, OneOfs, structures and aliases |
| Meaning.DecodedStructIffRepresents | src/lsp/lsp.cc.tmpl:123-166 | every member and every base of a structure is what the one object says of it, and an absent optional member stays as it was |
| Meaning.PrimitiveRepresents | src/lsp/decode.cc:32-79 | the primitive types, one by one |
| Meaning.EnumRepresents | src/lsp/lsp.cc.tmpl:73-86 | the enumerator decoded is the first whose literal is what the value holds as a value of the base type |
| Meaning.RepresentedConforms | src/lsp/lsp.cc.tmpl:123-166 | a JSON value that represents some object conforms to the type |
| Meaning.ConformingIsRepresented | src/lsp/lsp.cc.tmpl:123-166 | a JSON value that conforms represents an object, whatever it is decoded over |
| Meaning.RepresentsOne | src/lsp/lsp.cc.tmpl:123-166 | a JSON value represents one object only |
| Meaning.DefaultIffBlank | include/langsvr/lsp/lsp.h:2061-2135 | a value-initialised object is the only one of its type with every number zero, every string, list, map and OneOf empty, no optional member, and first enumerators |
| Encoder.Encode | src/lsp/lsp.cc.tmpl:203-209 | makes exactly the specified JSON value, or reports a non-empty reason, or meets an empty OneOf, only where there is no value to make |
| Encoder.EncodeVector | include/langsvr/lsp/encode.h:71-83 | the elements' encodings in order, or the first one that fails |
| Encoder.EncodeTuple | include/langsvr/lsp/encode.h:85-104 | the test `error.empty()` decides correctly between the array and a failure with a reason |
| Encoder.EncodeMap | include/langsvr/lsp/encode.h:106-118 | whatever order the entries come in, the object holds each under its own name |
| Encoder.EncodeStruct | src/lsp/lsp.cc.tmpl:203-209 | the object in which a later write of a name replaces an earlier one |
| Encoder.EncodeMembers | src/lsp/lsp.cc.tmpl:168-201 | appends to the members already there, in the order tag, own members, bases, what the structure writes |
| Encoder.EncodeFields | src/lsp/lsp.cc.tmpl:175-193 | present members are appended under their JSON names, absent ones skipped |
| Encoder.EncodeBases | src/lsp/lsp.cc.tmpl:195-199 | the members of every base are appended after those before them |
| Encoding.EncodedIffEncodable | src/lsp/lsp.cc.tmpl:168-209 | encoding produces a value exactly when no OneOf in the object is empty and every enumerator is a named one |
| Rendering.EncodedIffRenders | src/lsp/lsp.cc.tmpl:168-209 | encoding makes exactly the JSON value that renders the object: each number by the maker of its type, an enumerator as its literal, a OneOf as what it holds |
| Rendering.WrittenIffRenders | src/lsp/lsp.cc.tmpl:168-201 | a structure's object has exactly the names that its tag, its present members and its bases write, and holds what is written last under each: by the last base that writes it, else by the last member, else the tag |
| Json.ObjectOfConcat | src/json/jsoncpp.cc:252-258 | in the object built from a list of members a later write of a name wins |
| Json.DecimalFields | include/langsvr/lsp/lsp.h:1626-1638 | not-a-number and zero, by the exponent and the fraction of the pattern |
| RoundTrip.RoundTripIff | src/lsp/lsp.cc.tmpl:123-209 | under distinct member names and readable enums, decoding the encoding of an object into a default object gives it back exactly when every OneOf in it holds a value that no earlier alternative accepts, every enumerator is named, and every base with a member of a tag's name holds that tag |
| RoundTrip.SeparatedRoundTrip | src/lsp/lsp.cc.tmpl:123-209 | if moreover, in the type and the declarations it refers to, no earlier alternative accepts the encoding of a later one and no base has a member of a tag's name, exactly the encodable objects survive |
| RoundTrip.OneOfRoundTripIff | include/langsvr/lsp/decode.h:143-161 | a OneOf comes back as the same alternative exactly when no earlier alternative accepts its encoding |
| RoundTrip.StructRoundTripIff | src/lsp/lsp.cc.tmpl:123-209 | a structure is read back from any object that carries its members, also as a base among the members of a derived structure |
| RoundTrip.TagTwiceRoundTripIff | src/lsp/lsp.cc.tmpl:168-201 | a structure whose base has a `kind` member of its own survives exactly when that member equals the tag and all else is settled |
| RoundTrip.HiddenTagIsLost | src/lsp/lsp.cc.tmpl:123-201 | an object whose bases write nothing under the name that a member of theirs shares with the tag is not read back from any JSON object that carries it |
| RoundTrip.DerivedAfterBaseIsLost | include/langsvr/lsp/lsp.h:2165 | a structure listed after one of its bases never survives |
| Recoding.DecodedSurvivesIff | src/lsp/lsp.cc.tmpl:123-209 | what was decoded can be encoded, and decoding that gives the same object exactly when, wherever a OneOf was decoded, no alternative that refused the JSON there accepts the one taken once it is encoded again |
| Recoding.SettledIffSteady | src/lsp/lsp.cc.tmpl:123-209 | the condition on the object that was decoded and the condition on the JSON it was decoded from are the same, at every type |
| Recoding.SeparatedDecodedSurvives | src/lsp/lsp.cc.tmpl:123-209 | with alternatives that keep apart, everything that can be decoded survives being encoded and decoded again |
| Recoding.StringIsKept | include/langsvr/lsp/decode.h:143-161 | a JSON string that decodes, as a member of whatever type, is encoded again as the same string |
| Recoding.KindIsKept | src/lsp/lsp.cc.tmpl:123-201 | the string read as `kind` is the string written as `kind`, whether as the tag or as a member, of the structure or of any of its bases |
| LspSchemas.LspAnyUinteger | include/langsvr/lsp/lsp.h:614-615 | an unsigned LSPAny keeps its type exactly when the signed accessor refuses its number |
| LspSchemas.CreateFileRoundTrip | include/langsvr/lsp/lsp.h:2061-2135 | a CreateFile survives exactly when its options do and its base's kind reads `create` |
| LspSchemas.CreateFilesAreRegular | include/langsvr/lsp/lsp.h:2061-2135 | the doubled tag of CreateFile meets the conditions of the round trip |
| LspSchemas.CellFilterChangesType | include/langsvr/lsp/lsp.h:533 | a notebook cell filter with a language and a `scheme` of null is decoded as one, and comes back as something else |
| LspSchemas.SignedZerosCompareEqual | include/langsvr/lsp/lsp.h:1626-1638 | two different colours, one with -0.0 for 0.0, compare equal |
| LspSchemas.NaNComesBackUnequal | include/langsvr/lsp/lsp.h:1626-1638 | a colour with a NaN comes back the same, but is unequal to itself and to what comes back |
| Equality.EqualIff | src/lsp/lsp.cc.tmpl:105-117 | the generated operator== holds exactly when neither object has an empty OneOf or a NaN anywhere and the two are the same up to the signs of zeros |
| Equality.EqualIsSound | src/lsp/lsp.cc.tmpl:105-117 | objects that the generated operator== finds equal are the same up to the signs of zeros |
| Equality.EqualToItselfIff | include/langsvr/one_of.h:94-102 | an object equals itself exactly when no OneOf in it is empty and no Decimal in it is a NaN |
| Equality.EqualIsSymmetric | src/lsp/lsp.cc.tmpl:105-117 | the generated operator== is symmetric, at every type |
| Equality.EqualIsTransitive | src/lsp/lsp.cc.tmpl:105-117 | the generated operator== is transitive, at every type |
| ComparedRoundTrip.BackIsExact | src/lsp/lsp.cc.tmpl:123-209 | an object decoded from the encoding of another that is the same up to the signs of zeros is the very same object |
| ComparedRoundTrip.RoundTripComparesEqual | src/lsp/lsp.cc.tmpl:105-209 | what is decoded from the encoding of an object compares equal to it exactly when the object is settled and equals itself |
| Strings.ReplaceAll | src/utils/replace_all.h:39-48 | terminates though the string may grow, and yields leftmost non-overlapping replacement on the original string, also when the replacement contains the search string |
| Strings.PiecesAreUnique | src/utils/replace_all.h:39-48 | a string is cut at its leftmost separators in one way only |
| Strings.ReplacedIsUnique | src/utils/replace_all.h:39-48 | the specification of ReplaceAll determines its result |
| Strings.Decimal | src/content_stream.cc:97-101 | the numeral printed for a number consists of digits, is not empty, denotes that number, and starts with 0 only for zero |
| Strings.ValueIffNotation | src/content_stream.cc:61-101 | a string of digits denotes the number of which it is the decimal notation, digit by digit, and no other |
| Strings.DecimalIsShortest | src/content_stream.cc:97-101 | no notation of a number is shorter than the numeral printed, and it is the only one without leading zeros |
| Strings.DecimalIsPrinted | src/content_stream.cc:97-101 | exactly the decimal notation without leading zeros is printed |
| Framing.BufferReader.Read | src/buffer_reader.cc:36-42 | hands out the bytes not yet read, in order, as many as asked for or as there are |
| Framing.BufferReader.String | include/langsvr/reader.h:57-65 | exactly the bytes asked for, or EOF, after which nothing is left |
| Framing.BufferWriter.Write | src/buffer_writer.cc:34-39 | appends and keeps what was written before |
| Framing.Match | src/content_stream.cc:42-53 | succeeds exactly when the next bytes are the expected text, and consumes as many |
| Framing.ReadLength | src/content_stream.cc:61-76 | the value of the digits modulo 2^64 for any number of digits, with the two failures at the places the stream shows |
| Framing.ReadBody | src/content_stream.cc:78-94 | the separator and then exactly the announced bytes, or the failure that the stream's bytes determine, mismatch reports byte for byte |
| Framing.ReadContent | src/content_stream.cc:57-95 | the outcome and the position it leaves are those of reading one frame |
| Framing.WriteContent | src/content_stream.cc:97-101 | appends one frame: the header, the length of the content in decimal without leading zeros, two line ends, and the content |
| Framing.FrameBytes | src/content_stream.cc:97-101 | the bytes of a frame, character by character |
| Framing.WrapIsMod | src/content_stream.cc:61-70 | 64-bit wrapping is the remainder modulo 2^64 |
| Framing.WrapStep | src/content_stream.cc:68-71 | wrapping at each step of the length loop equals wrapping once at the end |
| Framing.LengthOf | src/content_stream.cc:61-76 | the result for any run of digits before any other byte or the end |
| Framing.NumeralReadExactly | src/content_stream.cc:61-76 | a numeral, with leading zeros or no digits at all, is read as its true value exactly when that is below 2^64 |
| Framing.ReadsOneOutcome | src/content_stream.cc:57-95 | a stream determines the result and the rest, down to the text of mismatch reports |
| Framing.FrameRoundTripIff | src/content_stream.cc:57-101 | a frame followed by anything is read back, and the reader left right behind it, exactly when the length is below 2^64 |
| Framing.FramesRoundTrip | src/content_stream.cc:57-101 | any list of messages is read back one by one, leaving the trailing bytes |
| Framing.ReadsAllOneOutcome | src/content_stream.cc:57-95 | reading a number of frames from a stream has one outcome |
| Framing.CutFrameFails | src/content_stream.cc:57-95 | no strict prefix of a frame is read successfully |
| Framing.FramesAreUnique | src/content_stream.cc:97-101 | message lists written as the same bytes are equal |
| Messages.BuiltIsClassified | src/session.cc:34-65 | requests, notifications and replies are told apart on receipt, with their own id and method |
| Messages.RequestHolds | include/langsvr/session.h:98-114 | a request is exactly the object with jsonrpc 2.0, its id, its method, and its parameters if it has any |
| Messages.NotificationHolds | include/langsvr/session.h:157-172 | a notification is exactly the object with jsonrpc 2.0, its method, and its parameters if it has any |
| Messages.ReplyHolds | src/session.cc:76-82 | a reply is exactly the object with jsonrpc 2.0, the id, and either a result or an error |
| Messages.ClassifyIff | src/session.cc:34-65 | for every message: a request, a response or a notification exactly by the method and the id it holds |
| Messages.SettleIff | include/langsvr/session.h:118-142 | for every response: the result decides if there is one, and the error only without one and for requests that have errors |
| Messages.ReplySettles | include/langsvr/session.h:118-142 | a reply resolves or rejects with its own decoded answer, and an error answer only for requests that have an error type |
| Sessions.Session.SetSender | include/langsvr/session.h:65 | replaces the sender and nothing else |
| Sessions.Session.Register | include/langsvr/session.h:217-276 | a handler registered again keeps the post-send callback of its method |
| Sessions.Session.RegisterNotification | include/langsvr/session.h:277-294 | adds the method and keeps all others |
| Sessions.Session.OnPostSend | include/langsvr/session.h:179-181 | sets the callback of one registered method only |
| Sessions.Session.SendJson | src/session.cc:102-107 | fails without a sender, else gives it the message, and its verdict decides; what the sender calls back happens |
| Sessions.Session.SendRequest | include/langsvr/session.h:95-150 | a new id each time; the handler is registered before the sender is given the message built of that id, the method and the parameters; a request that cannot be encoded uses up its id and registers nothing |
| Sessions.Session.Await | include/langsvr/session.h:117-142 | registering never replaces a handler, and the promise of a fresh id is unset |
| Sessions.Session.SendNotification | include/langsvr/session.h:157-172 | gives the sender the notification, and succeeds exactly when it is encoded, a sender is set, and the sender accepts |
| Sessions.Session.Run | include/langsvr/session.h:60 | every call of the foreign code takes the session from one state to the next, in order and to any depth of re-entrancy; the invariant is kept, no promise is unset, no removed handler comes back |
| Sessions.Session.Perform | include/langsvr/session.h:60-294 | each call has the effect that is stated for it, apart from the code that makes it |
| Sessions.Session.Receive | src/session.cc:34-100 | its effect is exact in every branch: messages that reach no handler change nothing; a response settles its own id; handlers and senders make their calls; a request is answered at most once, with its id, and succeeds exactly when the answer was delivered |
| Sessions.Session.ReceiveResponse | src/session.cc:42-57 | the handler is removed before it runs, so that a duplicate reply finds none and no promise is set twice |
| Sessions.Session.ReceiveRequest | src/session.cc:59-89 | one answer with the request's id, sent after the handler and before the post-send callback |
| Sessions.Session.Handle | src/session.cc:71-74 | the handler of an accepted request is given the message, and makes its calls |
| Sessions.Session.ReceiveNotification | src/session.cc:90-97 | the handler of a notification is given the message, makes its calls, and its verdict is the outcome |
| Sessions.Session.SendReply | src/session.cc:76-89 | the post-send callback runs only after delivery, and then exactly when one is set at that time, whatever the sender did meanwhile |
| Sessions.Session.CallBack | src/session.cc:87-89 | the callback makes its calls exactly when the table holds one for the method at the time of delivery |
| Sessions.MoveIsGood | src/session.cc:34-107 | every move a session makes keeps ids fresh, promises set at most once, and each request's record in order |
| Sessions.MoveIsLater | src/session.cc:34-107 | every move keeps what later states guarantee of earlier ones |
| Sessions.TrailUnaffected | src/session.cc:71-89 | nothing that happens during nested calls touches the record of a request accepted before |
| Sessions.LaterIsTransitive | src/session.cc:34-100 | what every call guarantees carries over whole runs |
| Sessions.PostedIsGood | include/langsvr/session.h:98-144 | issuing an id and registering its handler keeps ids 1, 2, 3... fresh and pending ids unsettled |
| Sessions.SettledIsGood | src/session.cc:54-56 | settling removes exactly one pending id and keeps all other promises |
| Effects.RunsOne | include/langsvr/session.h:60 | foreign code that starts in one state ends in one state only |
| Effects.DoesOne | include/langsvr/session.h:60-294 | so does each call, with all that is called meanwhile |
| Effects.DoesGrows | include/langsvr/session.h:60-294 | what a call is for is done when it ends, whatever else happened while it ran, and it takes back no record, id, promise or handler |
| Effects.EveryCallIsMade | include/langsvr/session.h:60 | each call that foreign code makes is made, from a state in between, and nothing of it is taken back |
| Effects.RunsIssue | include/langsvr/session.h:98 | an id is issued for every request that foreign code sends |
| Network.ActKeeps | src/session.cc:34-107 | every action of either side keeps the two-party invariant, also while a sender runs, while any number of requests are being handled, and when a request finds no handler |
| Network.RunKeeps | src/session.cc:34-100 | the invariant holds after every run |
| Network.PromiseIsOwnAnswer | src/session.cc:42-85 | in every run a promise of id k is set only with what the peer's handler answered to the very request sent under k, although both sides use the same ids |
| Network.ExactlyOnePlace | src/session.cc:34-107 | in every run each request that reached the sender is in exactly one of: with the sender, on its way, being handled, its reply with the peer's sender, its reply on its way, left without a reply (a request of a method without handler is, at once), refused by the sender, settled |
| Network.OpenCanGoOn | src/session.cc:59-89 | a request being handled can always be answered, and a reply can always be handed over: no state is stuck |
| Network.SidesAreSessions | src/session.cc:34-107 | in every run each side's session is a state that the moves of `Sessions.Session` lead to, with all their guarantees |
| Delivery.SentWasAsked | include/langsvr/session.h:95-150 | in every run, what was sent under an id is the request that a step asked when that was the next id, with its method and its parameters |
| Delivery.HandlerGetsWhatWasAsked | src/session.cc:59-71 | in every run, a handler is given, under each id, the method and the very parameters of the step of the other side that asked under it, and the session records that |
| Delivery.AnswerWasGiven | src/session.cc:71-82 | in every run, an answer is what a step of that side answered under that id |
| Delivery.PromiseIsDecodedAnswer | include/langsvr/session.h:118-142 | in every run, a promise is what the answer of a step of the other side decodes to, as result or error of the kind of request that was asked under that id |
| Delivery.RefusedByASender | src/session.cc:102-107 | in every run, a request failed only by a step in which its sender refused it |
| Delivery.LeftByAStep | src/session.cc:59-84 | in every run, a request got no reply only by a step in which its handler ended without one, the reply was refused, or there was no handler |
| Delivery.StepsThatEnd | src/session.cc:67-89 | what those steps leave behind |
| Delivery.NoticesArriveInOrder | src/session.cc:90-97 | in every run, the notifications that reached one side, followed by those under way, are those the steps of the other side told, in their order and with their parameters |
| Progress.AliveCanBeSettled | src/session.cc:34-107 | after every run, a request that was sent, and neither refused nor left without a reply, is settled by some continuation of the run |
| Arena.RoundUpIsLeast | src/utils/block_allocator.h:43-45 | the least multiple of the alignment that is not below the value |
| Arena.AddressIsAligned | src/utils/block_allocator.h:90-93 | aligned offsets in aligned blocks are aligned addresses, when the alignment divides the block's |
| Arena.Arena.Allocate | src/utils/block_allocator.h:261-289 | the region is aligned, inside one block and apart from all regions handed out before; a new block is taken exactly when the current one has no room |
| Arena.Arena.AddBlock | src/utils/block_allocator.h:269-283 | the new block is linked at the end and allocation starts at its beginning |
| Arena.Arena.FreeBlocks | src/utils/block_allocator.h:242-247 | every block of the list is deleted exactly once, its link read before |
| Arena.Arena.Reset | src/utils/block_allocator.h:242-248 | no block or region remains |
| PointerLists.PointerList.Add | src/utils/block_allocator.h:313 | the object comes last in creation order and the chunks before the last stay full |
| PointerLists.PointerList.AddChunk | src/utils/block_allocator.h:296-311 | the new chunk is linked both ways at the end and adds no object |
| PointerLists.PointerList.Begin | src/utils/block_allocator.h:162-164 | stands at the first object, or at the end when there is none |
| PointerLists.PointerList.Dereference | src/utils/block_allocator.h:144 | an iterator at the k-th object yields the k-th object created |
| PointerLists.PointerList.Next | src/utils/block_allocator.h:119-128 | leads from the k-th object to the next, and from the last one to the end |
| PointerLists.PointerList.Previous | src/utils/block_allocator.h:132-141 | leads from the k-th object to the one before, or from the first object of a chunk to the one before that |
| PointerLists.PrevStandsAt | src/utils/block_allocator.h:132-141 | the index an iterator stands at after the step back, for every index |
| PointerLists.PointerList.Walk | src/utils/block_allocator.h:239-241 | walking from begin to end visits every object once, in creation order |
| PointerLists.StandsAtObject | src/utils/block_allocator.h:144 | the pointer under an iterator that stands at index k is the k-th object created |
| PointerLists.NextStandsAt | src/utils/block_allocator.h:119-128 | iterators move like an index, because every chunk but the last is full and none is empty |
| PointerLists.StandsAtKept | src/utils/block_allocator.h:293-314 | an iterator that is not at the end keeps its place while objects are added |
| PointerLists.PrevUndoesNextIff | src/utils/block_allocator.h:119-141 | stepping on and back returns to the same object exactly when the step on neither crossed a chunk boundary nor reached the end; after a boundary it ends one object too early, after the end it stays there |
| Allocator.AllApart | src/utils/block_allocator.h:261-314 | all objects and all chunks stored among them are pairwise disjoint, aligned, and inside one block each |
| Allocator.BlockAllocator.RegionsApart | src/utils/block_allocator.h:261-314 | this holds in every reachable state of an allocator |
| Allocator.BlockAllocator.Create | src/utils/block_allocator.h:222-235 | the new object is apart from all others, comes last, and the count is the number of objects |
| Allocator.BlockAllocator.CreateAll | src/utils/block_allocator.h:222-235 | creates, in order, one object of the size and alignment of each request |
| Allocator.BlockAllocator.AddObjectPointer | src/utils/block_allocator.h:293-314 | the object is remembered in the last chunk or in a new chunk taken from the same memory |
| Allocator.BlockAllocator.Reset | src/utils/block_allocator.h:238-249 | every object is destroyed once, in creation order, every block is freed once, and the allocator is as new |
| Allocator.BlockAllocator.Move | src/utils/block_allocator.h:195 | takes over all objects and blocks and leaves an empty allocator behind |
| Allocator.BlockAllocator.MoveAssign | src/utils/block_allocator.h:200-206 | ends its own objects and blocks once, then takes over the other's; assigning to itself changes nothing |
| Allocator.BlockAllocator.WalkCreating | src/utils/block_allocator.h:119-128 | a loop over the objects whose body creates more visits all of them, old and new, in creation order; the new ones are, one by one, what the rounds asked for |
| Lifetimes.BalancedAfter | src/utils/block_allocator.h:195-249 | creating, moving and resetting keep: everything made is held once or ended once |
| Lifetimes.HeldOrEndedOnce | src/utils/block_allocator.h:195-249 | an object made is with exactly one allocator, once, or was ended exactly once |
| Lifetimes.BalancedEndsOnce | src/utils/block_allocator.h:195-249 | of objects and of blocks: each made is with exactly one allocator or ended exactly once, never both, and once nothing is held each has ended once |
| Lifetimes.ObjectIsNew | src/utils/block_allocator.h:222-289 | an object placed apart from the live ones of its allocator was never made before |
| Lifetimes.RunStaysGood | src/utils/block_allocator.h:195-249 | counts, locations and balances hold after every run |
| Lifetimes.GoodIsConserved | src/utils/block_allocator.h:195-249 | the invariant of the runs implies conservation of objects and blocks |
| ManyAllocators.World.New | src/utils/block_allocator.h:191 | one more allocator, which owns nothing and shares no memory |
| ManyAllocators.World.Create | src/utils/block_allocator.h:222-235 | is the lifetime model's step with the object and blocks actually made, which are new; all other allocators stay as they were |
| ManyAllocators.World.MoveConstruct | src/utils/block_allocator.h:195 | is the lifetime model's step; objects and blocks change hands, none is lost or shared |
| ManyAllocators.World.MoveAssign | src/utils/block_allocator.h:200-206 | is the lifetime model's step, for the same allocator on both sides too; what was destroyed and freed is what the model ends |
| ManyAllocators.World.Reset | src/utils/block_allocator.h:238-249 | is the lifetime model's step; what was destroyed and freed is what the model ends |
| Lifetimes.LifetimesConserved | src/utils/block_allocator.h:195-249 | after any run Count is the number of live objects; every object is live in one allocator or was destroyed exactly once, and every block is with one allocator or was freed exactly once |
| OwningCells.Heap.New | include/langsvr/one_of.h:120 | a fresh address, used by nothing before |
| OwningCells.Heap.Delete | include/langsvr/one_of.h:109 | frees exactly what the payload owns, each part while it is still allocated, and touches nothing else |
| OwningCells.Heap.DestroyMembers | include/langsvr/one_of.h:52 | destroying the members frees what they own and spares everything else |
| OwningCells.Heap.Copy | include/langsvr/one_of.h:74-80 | a copy has an equal value and only new payloads, at every depth; the original is untouched |
| OwningCells.Heap.CopyCell | include/langsvr/one_of.h:62 | as Copy, for a cell: same kind, equal value, disjoint payloads |
| Populations.Population.Reset | include/langsvr/one_of.h:108-112 | a cell, in the population or a member at any depth, becomes empty; what it owned is freed once, no other value changes |
| Populations.Population.CopyAssign | include/langsvr/one_of.h:72-84 | the cell is emptied and gets a deep copy of what the source holds then: the source may be the cell itself, lie elsewhere, or lie above it |
| Populations.Population.CopyConstruct | include/langsvr/optional.h:50 | a new cell with an equal value of its own |
| Populations.Population.MoveConstruct | include/langsvr/one_of.h:65-69 | the value of a cell at any depth moves, the source holds nothing but keeps its kind |
| Populations.Population.MoveAssign | include/langsvr/optional.h:79-84 | the old value is freed, the new one taken over, between any two cells neither of which lies below the other |
| Populations.Population.Set | include/langsvr/one_of.h:116-121 | the cell, at any depth, holds a new struct made of members copied, or moved one after the other, from cells at any depth; the target itself and one cell several times are among what may be taken |
| Populations.CopiedItself | include/langsvr/one_of.h:72-84 | assigning a cell to itself empties it |
| Populations.CopiedApart | include/langsvr/one_of.h:72-84 | elsewhere copying is plain assignment of the value |
| Populations.MovedOverItself | include/langsvr/optional.h:79-84 | move assignment from itself empties |
| Populations.MovedOverApart | include/langsvr/optional.h:79-84 | elsewhere moving assigns the value and empties the source |
| Populations.PickedAsTheyWere | include/langsvr/one_of.h:116-121 | members copied, or moved from cells apart from each other, have the values that were there at first |
| Populations.SetElsewhere | include/langsvr/one_of.h:116-121 | no cell apart from the one that is set and those moved from shows a difference |
| CellEffects.EmptiedShows | include/langsvr/one_of.h:108-112 | an emptied cell holds nothing and a OneOf has no kind; every cell apart from it holds what it held |
| CellEffects.MovedOutShows | include/langsvr/one_of.h:65-69 | a cell moved from holds nothing and says what it held; every cell apart from it holds what it held |
| CellEffects.CopiedFromAbove | include/langsvr/one_of.h:72-84 | a cell assigned from a cell above it gets what that held with the target emptied in it |
| CellEffects.SetShows | include/langsvr/one_of.h:116-121 | the struct that a cell is set to, and each member of it |
| CellEffects.SetLeaves | include/langsvr/one_of.h:116-121 | the cells that members were moved from are empty and say what they held |
| NestedCells.ReadableAfterResetIff | include/langsvr/one_of.h:72-84 | after an assignment has reset its target, the source can still be read exactly when it does not lie below the target |
| NestedCells.MovedIntoItselfIsLost | include/langsvr/optional.h:79-84 | moving what a cell holds into a cell below it leaves a payload that owns itself and that no cell owns, whatever the cells are taken to hold |
| NestedCells.SetFromAboveIsLost | include/langsvr/one_of.h:116-121 | a struct made for a cell from a member moved out of a cell above it owns itself, and no cell owns it |
| Places.HoldsReplaced | include/langsvr/one_of.h:49-121 | writing one cell, in the population or inside a payload, changes what is held at its place only |
| Places.ApartPlaces | include/langsvr/one_of.h:49-121 | cells neither of which lies below the other are different objects in memory |
| OwningCells.OneOwner | include/langsvr/one_of.h:49-121 | no payload has two owners and none that is owned was freed |
| OwningCells.NothingLeaks | include/langsvr/one_of.h:49-121 | every payload on the heap has an owner |
| Paths.ReachesFurther | tools/cmd/gen/protocol/type.go:36-49 | a path can be extended by an edge |
| Paths.ClosedHoldsReached | tools/cmd/gen/protocol/type.go:36-49 | a set closed under the edges holds all that is reachable from it |
| Walks.PreorderOnStack | tools/cmd/gen/protocol/type.go:36-49 | popping a new node and pushing its successors goes on with the same walk, parents first and from the last to the first |
| Walks.PreorderConcat | tools/cmd/gen/resolver/resolve.go:390-418 | a walk over two lists is a walk over the second and then one over the first with what is left |
| Walks.PostorderConcat | tools/cmd/gen/resolver/resolve.go:427-456 | a walk over two lists, children first, is a walk over the first and then one over the second with what is left |
| Ordering.TypeNode.SubTypes | tools/cmd/gen/protocol/type.go:52-163 | exactly the types a type is directly built from, in order: an array's element, a map's key and value, the items of the others |
| Ordering.RecursiveTypesOf | tools/cmd/gen/protocol/type.go:36-49 | exactly the types contained at any depth, each once, terminating on shared and cyclic graphs, in the order of the depth-first walk from the last part to the first |
| Ordering.Tabulate | tools/cmd/gen/resolver/resolve.go:421-424 | every declaration is found under its name |
| Ordering.SameNamesPermute | tools/cmd/gen/resolver/resolve.go:420-458 | uniquely named lists over the same names are permutations of each other |
| StructureOrder.Visit | tools/cmd/gen/resolver/resolve.go:430-452 | visiting terminates, emits each structure at most once, and after its needs unless they lead back to it; what it emits is the walk from that structure, children first |
| StructureOrder.VisitBases | tools/cmd/gen/resolver/resolve.go:435-441 | every base is visited before the structure is emitted |
| StructureOrder.VisitTypes | tools/cmd/gen/resolver/resolve.go:442-450 | every structure mentioned below a property's type is visited before |
| StructureOrder.SortStructures | tools/cmd/gen/resolver/resolve.go:420-458 | a permutation of the input, also on cycles, in which every structure comes after those it extends or contains a reference to that do not lead back to it; in exactly the order of the depth-first walk, children first, over bases and then contained references |
| AliasOrder.References | tools/cmd/gen/resolver/resolve.go:407-413 | exactly the aliases referred to anywhere in an alias's type, in the order they are found |
| AliasOrder.ReversedOrder | tools/cmd/gen/resolver/resolve.go:390-418 | the reversed list is dependency-first exactly when the list has all dependencies later |
| AliasOrder.SortTypeAliases | tools/cmd/gen/resolver/resolve.go:390-418 | a permutation of the input, in exactly the order of the depth-first walk, parents first, from the last alias to the first; it is dependency-first exactly when every alias's dependencies come later in the input, and then it is the reversed input |

## Left out

- jsoncpp's text parsing and printing, also within `Session::Receive`: JSON is a datatype. Each number accessor reads back what its own maker wrote; which other numbers it accepts is a parameter of every theorem.
- Arithmetic on doubles: they are only copied and compared, as IEEE 754 binary64 patterns.
- The text of failure reasons, except that it is never empty and, for separators in frames, exact to the byte.
- Decoder.DecodePrimitive: what it assigns is what the accessor reads; which numbers an accessor accepts beyond those of its own maker is a matter of jsoncpp.
- RoundTrip.RoundTripIff: is stated for a default-initialised object, because decoding into any other leaves absent optional members and unnamed map entries as they were (`Meaning.Represents` says how).
- Order of iteration of unordered maps: any order is allowed, and the results do not depend on it.
- Sessions.Session.SendRequest: ids are unbounded integers; what happens when the 64-bit counter overflows is not modelled, and `Network` stops asking at the last 64-bit value.
- `std::future` and threads: a promise is a cell that is set at most once; waiting is not modelled.
- The handlers' own decoding of parameters and encoding of results is part of what foreign code decides.
- A sender that delivers a message and then reports failure: `Network` treats a refused message as not sent.
- Out-of-memory paths and `std::length_error` for huge content lengths; readers and writers other than the buffered ones.
- `BlockAllocator` with objects whose constructors or destructors call the allocator, and polymorphic deletion.
- Arena.Arena.Allocate: alignments and sizes are parameters; that an alignment divides the block alignment is what `Arena.AddressIsAligned` asks for.
- The chunks of the pointer list are values in a map from regions to chunks, the memory they lie in; the contents of the objects are not modelled.
- Populations.Population.CopyAssign: not from a cell below the target, which is deleted before it is read; `NestedCells` states that.
- Populations.Population.MoveAssign: not between a cell and one below it, in either direction; `NestedCells` states what happens then.
- Populations.Population.Set: members are not taken from below the cell that is set nor moved from above it, for which see `NestedCells`; nor moved from below a cell that an earlier member was moved from.
- Copying or comparing a moved-from OneOf through `Visit` is covered as a OneOf without a value; that `Is` still answers true for it is what keeping the kind says.
- StructureOrder.SortStructures: `StructureLiteral` types and the other leaf types are one kind of leaf, since the code treats them alike.
- `resolveTypes`, naming, documentation, templates, formatting and file handling of the generator.
- `ReplaceAll` with an empty search string, on which the code does not terminate.
- `Span`, `traits.h`, `Position` comparison and the rest of the utility headers.
