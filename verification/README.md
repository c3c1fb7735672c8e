# Verified model of llama.cpp's compact algorithms

This project models, in Dafny, the self-contained algorithms of llama.cpp that carry real invariants, and
proves what they promise over all inputs and all runs. `dafny verify dfyconfig.toml` checks everything.

Code that the original writes as expressions and recursion is modelled as functions. Code that the original
writes as loops, in-place buffers or objects with changing fields is modelled as methods and classes, each
proved equal to a specification function; the properties are then lemmas about those functions.

**Streaming chat output.** A model's text is parsed again and again while it grows, and a client sees only
deltas.

* `Json` is the JSON library at the level the chat code uses it: string escaping and a reader for RFC 8259.
  Escaping is a homomorphism that the reader inverts (section 7 of RFC 8259).
* `QuoteNormalizer` rewrites Python quotes to JSON quotes; `PythonLiterals` and `PythonValues` say what a JSON
  reader makes of the result. `BraceScanner` counts open braces outside strings.
* `ToolCallMapper` builds a message from a pre-order stream of tagged syntax nodes; `ToolCallRuns` proves its
  invariant over every well-nested run and says what each message holds; `ValueGrowth` says exactly when an argument
  value that is still being written is sent without revision; `ToolCallStreaming` proves that longer runs only extend
  the message.
* `Gemma4Json` prints unfinished syntax trees; `Gemma4Mapper` turns forests of them into messages.
* `ChatDiff` computes deltas and replays them as the client does; `ChatFilter` holds back the names of calls until
  their arguments begin; `ChatStream` is the server state with its cache of tool-call ids, and whole sessions of
  server and client, with and without that filter.
* `Segments` and `DiffSplit` cut and compare two template outputs, `CommonEnds` finds how far two texts agree,
  and `Affixes` looks for what they have in common in a third.
* `ToolTurns` merges tool calls, tool answers and the closing message into one message.

**Fast forms and the simple forms they must agree with.**

* `Tensors`, `LoraTensor`, `LoraOps`, `LoraEllipsis` and `LoraExpr`: operations on two low-rank factors, and whole
  expressions of them, against the same on their product; `LoraMisfits` holds the inputs on which they differ.
* `Utf8` and `LineEditor`: a byte line with two cursors against a sequence of code points with one cursor.
* `Glob`: the backtracking matcher against cutting the text into one piece for each pattern token.
* `Escapes`: decoding in place against decoding into a text of its own.

`Wrappers`, `Sequences` and `HexDigits` hold what several modules share.

**Codecs and layouts.** `Base64` (sections 4 and 5 of RFC 4648), `LegacyLayout` (legacy GGML model files),
`CpuMask` (hexadecimal affinity masks), `CsvRow` (quoted rows).

## Where the code and what it promises part

* `calculate_diff_split` loses text when a branch after its loop consumes a side the loop has already used up.
  `DiffSplit.LossExample` is an input, `DiffSplit.LossIff` says exactly when it happens, and
  `DiffSplit.GuardedNeverLoses` shows that guarding those branches by the two flags repairs it.
* `convert_tool_responses_gemma4` drops the text of an assistant message that makes tool calls
  (`ToolTurns.TextLostExample`); it survives exactly when the closing message has the same content
  (`ToolTurns.TextSurvivesIff`).
* `normalize_quotes_to_json` keeps escapes that Python has and JSON has not: `"it\'s"` stays as it is, and no JSON
  reader takes it (`PythonLiterals.ApostropheExample`). `PythonLiterals.PortableIff` says for which literals a JSON
  reader gets the characters Python gets.
* It rewrites quotes and not Python's constants: a container with `True`, `False` or `None` in it is no JSON afterwards
  (`PythonValues.ConvertedParses` says that this is the only obstacle), and is sent as one string
  (`PythonValues.ContainerIsSent`).
* A bare argument value (one that is not declared as a string) is streamed as whatever its beginning looks like. The
  client gets a growing text exactly while the value's form stays (`ToolCallStreaming.BareGrowsIff`,
  `ValueGrowth.GrowsIff`): `tr` is sent as the beginning of a string and `true` as a truth value, and between the two
  the server has no delta to send and throws (`ToolCallStreaming.TruthExample`, `ToolCallStreaming.BareFailsIff`); a
  container that stops between a backslash and the single quote it escapes is revised as well
  (`ValueGrowth.EscapeExample`, `QuoteNormalizer.GrowsIff`).
* A lone slice of a LoRA tensor's leading axis along which factor A is broadcast (`LoraMisfits.SliceMisfit`), or a
  tuple with a slice that shrinks a leading axis A really has (`LoraMisfits.TupleMisfit`), leaves factors that no
  longer fit together; `LoraTensor.GetitemCommutes` has the exact condition. A lone integer other than 0 and -1 on
  such a broadcast axis raises (`LoraMisfits.IntegerRaises`). `LoraTensor.AnswerDefined` says exactly when the class
  answers, and that it lets integers for rows and columns pass when the last sliced axis happens to be as long as the
  rank; such an answer stands for no subscript of the product.
* An ellipsis in the middle of a LoRA subscript is expanded by the length of the tuple, not by the number of
  axes: on three axes `[..., 0:1]` takes the first row instead of the first column
  (`LoraEllipsis.EllipsisMisplaced`); `LoraEllipsis.EllipsisIff` says exactly when the subscripts land.
* `torch.cat` on three or more axes requires that no factor A is broadcast along the joined axis
  (`LoraOps.CatIff`; `LoraMisfits.CatMisfit` is an input).
* Replaying the deltas of two messages gives the second one exactly when it extends the first
  (`ChatDiff.ReplayIff`); deltas are also defined for some pairs where it does not (`ChatDiff.ShrinkingExample`).
* With filtered tool calls a name is sent once: the client keeps following exactly as long as no name that was sent
  changes (`ChatFilter.FollowsIff`, `ChatFilter.RenamedExample`), and a call without a name goes out only with a delta
  of its own (`ChatFilter.SentIff`, `ChatFilter.CompleteIff`, `ChatFilter.UnnamedExample`). Where the
  declared functions have names, no parser of the repository gives such calls, since a name is an atomic literal
  (common/chat-peg-parser.h:83): calls are named from the start and keep their names, so filtering is faithful for all tagged runs and gemma4 forests (`ToolCallStreaming.FilteredRuns`,
  `Gemma4Mapper.FilteredForests`).
* The flush at the end of `common_chat_peg_mapper::from_ast` never finds a call to publish
  (`ToolCallRuns.FlushNeverHappens`).
* The line editor accepts numbers above 0x10FFFF; they add a width and no bytes, and no text fits the line
  afterwards (`LineEditor.LineEditor.InsertCharacter`).

## Model

| member | source | states |
|---|---|---|
| Json.EscapeConcat | common/chat-peg-parser.cpp:70-76 | escaping a concatenation is concatenating the escapes, for all texts |
| Json.ReadStringOfEscape | common/chat-peg-parser.cpp:70-76 | a JSON reader takes an escaped text back to exactly the characters that were escaped, so it has no bare quote and no dangling backslash |
| Json.EscapeInjective | common/chat-peg-parser.cpp:70-76 | different texts have different escapes |
| Json.EscapePrefixIff | common/chat-peg-parser.cpp:70-76 | one escaped text begins with another exactly when the texts do |
| Json.ReadValueAppend | common/chat-peg-parser.cpp:357-375 | reading a JSON value looks no further than the value: any delimiting text may follow |
| BraceScanner.JsonBraceDepth | common/chat-peg-parser.cpp:41-67 | the loop over the two flags computes the depth of the three-part scanner state, for every text |
| BraceScanner.RunConcat | common/chat-peg-parser.cpp:41-67 | scanning a concatenation is scanning on from where the first part stopped |
| BraceScanner.RunQuote | common/chat-peg-parser.cpp:41-67 | a quoted string, whatever braces and quotes it holds, is invisible to the scanner |
| BraceScanner.RunReadValue | common/chat-peg-parser.cpp:41-67 | whatever a JSON reader accepts as a value leaves the scanner outside strings at its old depth |
| BraceScanner.JsonTextIsBalanced | common/chat-peg-parser.cpp:41-67 | every complete JSON text is balanced for the scanner |
| QuoteNormalizer.NormalizeQuotesToJson | common/chat-peg-parser.cpp:83-160 | a reader of both quote styles finds the same tokens in the output as in the input (text outside literals, and each literal's characters), and the output holds double-quoted literals only |
| QuoteNormalizer.NormalizeOne | common/chat-peg-parser.cpp:90-157 | one pass of the loop adds the piece the transducer adds, and moves behind what it has read |
| QuoteNormalizer.PreservesMeaning | common/chat-peg-parser.cpp:83-160 | the same from every mode of the transducer, for unfinished texts too |
| QuoteNormalizer.OutputIsDoubleQuoted | common/chat-peg-parser.cpp:83-160 | no literal of the output is single-quoted |
| QuoteNormalizer.KeepsDoubleQuotedText | common/chat-peg-parser.cpp:83-160 | a text without single-quoted literals is left exactly as it is |
| QuoteNormalizer.Idempotent | common/chat-peg-parser.cpp:83-160 | a second pass changes nothing |
| QuoteNormalizer.ScannerFollowsMeaning | common/chat-peg-parser.cpp:41-67 | on double-quoted text the scanner's depth is the brace balance of what the text means |
| QuoteNormalizer.DepthOfOutput | common/chat-peg-parser.cpp:41-160 | the depth counted on the output is that of the input ignoring braces inside either quote style |
| QuoteNormalizer.GrowsIff | common/chat-peg-parser.cpp:83-160 | while a text grows its rewriting grows, except exactly where a backslash at the end, inside single quotes, turns out to escape a single quote |
| PythonLiterals.PortableIff | common/chat-peg-parser.cpp:83-160 | for every literal of either style: a JSON reader takes the rewritten literal to the characters Python takes it to, and goes on behind it, if and only if the literal is closed, has no bare control character, and has only escapes that JSON shares |
| PythonLiterals.LiteralBecomesJson | common/chat-peg-parser.cpp:345-375 | such a literal is read as a JSON string value, and what follows it is rewritten on its own |
| PythonLiterals.SlashDiffers | common/chat-peg-parser.cpp:83-160 | an escaped slash never denotes the same to Python and to a JSON reader |
| PythonLiterals.ApostropheExample | common/chat-peg-parser.cpp:118-124 | an escaped single quote in double quotes stays, and the output is no JSON text |
| PythonValues.ValueConverts | common/chat-peg-parser.cpp:83-160 | rewriting a source text with any quotes, white space and spelling of constants gives the same text in JSON's quotes, whatever follows |
| PythonValues.ConvertedParses | common/chat-peg-parser.cpp:354-375 | the rewritten text parses to its value if no constant is spelled as Python spells it, and does not parse otherwise |
| PythonValues.ContainerIsSent | common/chat-peg-parser.cpp:345-397 | a finished list or dictionary is sent as the JSON text of its value, or as one string if it has a constant in Python's spelling |
| ToolCallMapper.AddedText | common/chat-peg-parser.cpp:345-397 | the value case adds the text, and owes the quote, that its specification says, on every branch |
| ToolCallMapper.CloseBraces | common/chat-peg-parser.cpp:412-415 | one closing brace is appended for every brace the scanner counts as open, none for a negative depth |
| ToolCallMapper.Mapper.Map | common/chat-peg-parser.cpp:252-425 | one node changes all fields of the mapper as the state machine says; what runs of it amount to is `TextsArrive`, `CallsHaveTitles` and `ClosedCallsAreJsonObjects` |
| ToolCallMapper.Mapper.FromAst | common/chat-peg-parser.cpp:221-250 | visiting a run and finishing gives the message the run of the state machine gives |
| ToolCallMapper.TrailingDropped | common/chat-peg-parser.cpp:11-20 | only white space is dropped at the end, as much as there is or as is allowed |
| ToolCallMapper.LeadingDropped | common/chat-peg-parser.cpp:22-31 | the same in front |
| ToolCallMapper.TrimKeeps | common/chat-peg-parser.cpp:34-36 | an argument name loses at most one white-space character in front and all of them behind |
| ToolCallRuns.StepKeepsInv | common/chat-peg-parser.cpp:252-425 | the invariant tying the mapper's fields to the nesting of the run is kept by every kind of node, arguments given as one object included |
| ToolCallRuns.RunKeepsInv | common/chat-peg-parser.cpp:252-425 | it holds after every well-nested run, finished or not, and a current tool that is gone is never touched |
| ToolCallRuns.ValueOk | common/chat-peg-parser.cpp:345-397 | what a value node adds is, once the owed quote is written, JSON text for the value it denotes, and invisible to the brace scanner |
| ToolCallRuns.ObjectParses | common/chat-peg-parser.cpp:325-415 | entries joined by commas inside braces read back as the object with exactly those members in order |
| ToolCallRuns.ClosingQuoteExact | common/chat-peg-parser.cpp:252-425 | in every state of every well-nested run a closing quote is owed exactly when the scanner ends inside a string on the text being written; never for arguments given as one object nor for a value that denotes nothing yet |
| ToolCallRuns.ClosedCallsAreJsonObjects | common/chat-peg-parser.cpp:252-425 | each closed call carries its name, and its arguments read as a JSON object: of the argument names and values in order, or of the members of the object that was given; the latter also while the call is open |
| ToolCallRuns.OpeningEndsWholeCall | common/chat.cpp:902-911 | in formats without a node for the end of a call, opening the next call ends one whose object is complete |
| ToolCallRuns.CallsAreNamed | common/chat-peg-parser.cpp:300-322 | in every state of every well-nested run all calls that exist have names |
| ToolCallRuns.TextsArrive | common/chat-peg-parser.cpp:252-265 | after any run the reasoning is the text of all reasoning nodes in order, and the content that of all content nodes |
| ToolCallRuns.RunsSay | common/chat-peg-parser.cpp:221-250 | the same for the published message, whose reasoning is dropped when it is all white space |
| ToolCallRuns.CallsHaveTitles | common/chat-peg-parser.cpp:267-323 | there is one call for each opened call with a name, in order; its name and id are the texts of its last name and id nodes, without white space at the end and without quotes around the id |
| ToolCallRuns.ClosedCallsAreBalanced | common/chat-peg-parser.cpp:405-417 | a closed call's arguments end outside strings at depth zero |
| ToolCallRuns.FlushNeverHappens | common/chat-peg-parser.cpp:224-249 | after any run the final flush publishes nothing; finishing only drops reasoning that is all white space |
| ValueGrowth.FormIsSent | common/chat-peg-parser.cpp:345-397 | a bare value is sent not at all, as it stands in JSON quotes, or as an open string, by its form |
| ValueGrowth.GrowsIff | common/chat-peg-parser.cpp:345-397 | for every text and every continuation of it: what is sent for the longer value continues what was sent for the shorter one if and only if the form stays and no escape is cut |
| ValueGrowth.ContainerGrowsIff | common/chat-peg-parser.cpp:348-389 | an unfinished list or object is continued if and only if it stays unfinished or ends as JSON, and was not cut inside an escaped single quote |
| ValueGrowth.UnfinishedIsSent | common/chat-peg-parser.cpp:386-389 | an unfinished container is sent with all tokens read so far, in double quotes, and no string is opened around it |
| ValueGrowth.EscapeExample | common/chat-peg-parser.cpp:105-125 | a container whose text stops between a backslash and the quote it escapes is revised |
| ToolCallStreaming.TrimOnceMonotone | common/chat-peg-parser.cpp:11-33 | trimming at most one white-space character on either side keeps the prefix order |
| ToolCallStreaming.TrimAllMonotone | common/chat-peg-parser.cpp:11-20 | dropping all white space at the end keeps the prefix order |
| ToolCallStreaming.ShownIsEnough | common/peg-parser.cpp:291-299 | leaving out the nodes of rules and of tags without effect changes neither the mapper's state nor the nesting |
| ToolCallStreaming.LongerRunExtends | common/chat-peg-parser.cpp:252-425 | lengthening a run, or the text of its last value (a bare one where its form stays), whole object, reasoning or content, while the rule nodes around it grow in any way, only extends the message and the argument text of its last call, and no call changes its name |
| ToolCallStreaming.PublishedGrows | common/chat-peg-parser.cpp:221-250 | the same for the published message, with white-space reasoning dropped |
| ToolCallStreaming.BareGrowsIff | common/chat-peg-parser.cpp:345-397 | for every run that ends in a bare value: the message for a longer value extends the one for the shorter value if and only if the form stays, or the call has no name yet |
| ToolCallStreaming.BareFailsIff | common/chat.cpp:54-67 | for every such pair: deltas fail if and only if the call has a name and neither text sent begins with the other |
| ToolCallStreaming.TruthExample | common/chat-peg-parser.cpp:473-474 | in every run that stands behind an argument name of a named call, `tr` and then `true` make the deltas fail |
| ToolCallStreaming.GrowingArgumentExample | common/chat-auto-parser-generator.cpp:335-372 | a string argument that grows inside a call, with the trigger, function and argument rules around it, is a growing run |
| ToolCallStreaming.StreamedRuns | tools/server/server-task.cpp:157-178 | a server that maps ever longer runs and sends deltas never fails, and its client ends with the last message |
| ToolCallStreaming.FilteredRuns | tools/server/server-task.cpp:157-232 | the same with filtered tool calls, without further conditions |
| Gemma4Json.Monotone | common/chat-peg-parser.cpp:875-968 | if a tree grows into another, the text printed for it is a prefix of the text printed for the other; a node without a closing text may grow even if the parser took it as finished; how much is printed says `UnfinishedShowsAll` |
| Gemma4Json.UnfinishedShowsAll | common/chat-peg-parser.cpp:875-968 | for every tree: what is printed, with the quotes and brackets that are still open, is what is printed for the tree taken as finished |
| Gemma4Json.UnfinishedParses | common/chat-peg-parser.cpp:875-968 | so it is a JSON text for everything read so far as soon as the last value is whole |
| Gemma4Json.RoundTrip | common/chat.cpp:1120-1152 | on a finished tree of the grammar a JSON reader recovers exactly the tree's value, whatever delimiting text follows; white space the grammar takes in after a scalar is passed on |
| Gemma4Json.PrintsJson | common/chat-peg-parser.cpp:875-968 | the printed text of a finished tree is a JSON text for its value |
| Gemma4Mapper.Mapper.Visit | common/chat-peg-parser.cpp:970-1007 | visiting a node adds exactly the node's contribution to the message |
| Gemma4Mapper.Mapper.FromAst | common/chat-peg-parser.cpp:869-873 | visiting a forest adds the contributions of its trees in order |
| Gemma4Mapper.MessageReads | common/chat-peg-parser.cpp:970-1007 | the message of any forest: reasoning and content are the texts of all nodes of their tags in order, the calls those of all tool nodes |
| Gemma4Mapper.CallReads | common/chat-peg-parser.cpp:983-1001 | a tool node shows a call exactly when it has a finished name and arguments; the name is the text of the first name node, and the arguments with the closing texts are JSON for what was read |
| Gemma4Mapper.FindsFirst | common/peg-parser.cpp:259-273 | the bounded search finds the first node of the tag in pre-order |
| Gemma4Mapper.FindGrows | common/peg-parser.cpp:259-273 | a tag found in a tree is found again after growth, in the node grown from it |
| Gemma4Mapper.ContributionGrows | common/chat-peg-parser.cpp:970-1007 | growth of a tree, its contents ended at a partial delimiter included, is growth of its contribution: text extended, earlier calls unchanged, last arguments extended, no name changed |
| Gemma4Mapper.DelimiterExample | common/peg-parser.cpp:803-816 | a content that ends in the beginning of a marker and then goes on grows, though the parser took it as finished and a call seemed to begin |
| Gemma4Mapper.PlaceholderExample | common/peg-parser.cpp:380-448 | a call that stops behind a colon, where the parser expects a string, and goes on with a value of any kind is a growing stream |
| Gemma4Mapper.StreamedForests | tools/server/server-task.cpp:157-178 | however the forest grows step by step, no delta fails and the client ends with the last forest's message |
| Gemma4Mapper.FilteredForests | tools/server/server-task.cpp:157-232 | the same with filtered tool calls, if the finished names of tools have text |
| ChatDiff.ToolCallDiffs | common/chat.cpp:173-216 | the tool-call loop computes the specified deltas, or the specified error |
| ChatDiff.ComputeDiffs | common/chat.cpp:153-219 | deltas of an extension are defined, and defined deltas replay to the new message exactly when it extends the old one |
| ChatDiff.DefinedIff | common/chat.cpp:54-216 | deltas are defined if and only if texts and last arguments are comparable, no call is gone and the name of the last known call is kept, filled in, dropped or extended; otherwise which error comes first |
| ChatDiff.DeltasAre | common/chat.cpp:153-219 | all deltas of a step in order: one for each text that changed, one for the last known call if it says something new, one for each new call, and no others |
| ChatDiff.NewCallsAre | common/chat.cpp:212-216 | delta k of the new calls carries call k whole |
| ChatDiff.ReplayTheorem | common/chat.cpp:54-67 | the same for all pairs of messages, with the client's rules for applying a delta |
| ChatDiff.ReplayIff | tests/test-chat.cpp:1015-1037 | applying the deltas of one step gives the new message if and only if it extends the previous one |
| ChatDiff.ShrinkingExample | common/chat.cpp:153-219 | for a content that lost its end deltas are defined, and replaying them keeps the old content |
| ChatDiff.ApplyNewCalls | tests/test-chat.cpp:1022-1036 | the deltas of new calls append exactly those calls |
| ChatFilter.FilterDiffs | tools/server/server-task.cpp:172-228 | the three nested loops give the specified deltas and the specified set of sent names |
| ChatFilter.UpdateFollows | tools/server/server-task.cpp:172-228 | after a filtered update the client differs from the message in calls that are held back only, and not at all once the text is complete and every call without a name has been sent |
| ChatFilter.FollowsIff | tools/server/server-task.cpp:172-228 | it does so if and only if no call whose name was sent has got another name or id |
| ChatFilter.SentIff | tools/server/server-task.cpp:175-222 | which calls an update has sent, named or not, partial text or complete: exactly those sent before, those a delta sends, and at the end those with a name |
| ChatFilter.CompleteIff | tools/server/server-task.cpp:172-228 | when the text is complete the client holds the message if and only if every call without a name was sent before or has a delta now |
| ChatFilter.RenamedExample | tools/server/server-task.cpp:188-204 | a name that grows after it was sent stays as it was on the client |
| ChatFilter.UnnamedExample | tools/server/server-task.cpp:175-222 | a call without a name and arguments is held back, and not sent at the end either if it has no delta then |
| ChatFilter.NamedAtMostOnce | tools/server/server-task.cpp:172-228 | no call is named twice or again, what is named is marked as sent, and nothing else is if all calls have names |
| ChatStream.ExtendKeepsIds | common/chat.h:97-109 | extending the id cache never changes an id it holds, and covers every call |
| ChatStream.NewIds | common/chat.h:97-109 | a new entry is the call's own id, and a generated one only where it has none; one id is generated for each call without one, in order |
| ChatStream.NoIdTwice | common/chat.h:97-109 | two calls without ids get ids generated at different times, and all generated ids are used up |
| ChatStream.TaskResultState.SetToolCallIds | common/chat.h:97-109 | the loop extends the cache as specified and overwrites every call's id with the cached one; which ids those are say `NewIds` and `NoIdTwice` |
| ChatStream.TaskResultState.UpdateChatMsg | tools/server/server-task.cpp:157-232 | one update: an empty parse changes nothing and sends nothing; any other becomes the message, with the cached ids, and the deltas lead from the old message to it, filtered or not; ids already given stay |
| ChatStream.IdsKeepGrowthReplayable | common/chat.h:97-109 | sharing the cache turns growth of parses, whose own ids may change, into growth of the messages sent |
| ChatStream.ClientFollows | tools/server/server-task.cpp:157-178 | over any run of growing parses the server never fails, the client always holds the server's message, and no id changes |
| ChatStream.OneUpdate | tools/server/server-task.cpp:157-178 | one update with a growing parse from any state in step leaves the client with the message |
| ChatStream.FirstIdStays | common/chat.h:97-109 | over a run of growing parses the client ends with a call's own id, as the first parse with that call gave it |
| ChatStream.StreamIsFaithful | tools/server/server-task.cpp:157-178 | from an empty conversation the client ends with the last parse under the cached ids |
| ChatStream.OneFilteredUpdate | tools/server/server-task.cpp:157-232 | one filtered update from any state in step leaves server and client in step |
| ChatStream.FilteredClientFollows | tools/server/server-task.cpp:157-232 | over any run of growing parses with filtering the server never fails and the client lacks held-back calls only, and nothing after a complete parse whose calls are named |
| ChatStream.FilteredStreamIsFaithful | tools/server/server-task.cpp:157-232 | from an empty conversation the client of a filtered stream ends with the last parse under the cached ids |
| ChatStream.FilteredWithFixedNames | tools/server/server-task.cpp:157-232 | the same for every stream whose calls keep their names from parse to parse |
| Segments.SegmentizeMarkers | common/chat-auto-parser-helpers.cpp:269-299 | the loop computes the segments of the text |
| Segments.Tiles | common/chat-auto-parser-helpers.cpp:269-299 | the segments tile the text exactly |
| Segments.NonEmpty | common/chat-auto-parser-helpers.cpp:269-299 | no segment is empty |
| Segments.CutsAreRight | common/chat-auto-parser-helpers.cpp:269-299 | markers begin with `<` or `[`, end with `>` or `]` and hold no earlier one; texts hold no opener, except a last marker that is never closed |
| CommonEnds.FindPrefixLen | common/chat-auto-parser-helpers.cpp:69-76 | the loop finds the length of the common prefix |
| CommonEnds.FindSuffixLen | common/chat-auto-parser-helpers.cpp:78-85 | the loop finds the length of the common suffix |
| CommonEnds.PrefixIsLongest | common/chat-auto-parser-helpers.cpp:69-76 | the common prefix is common, and no longer one is |
| CommonEnds.SuffixAgrees | common/chat-auto-parser-helpers.cpp:78-85 | the common suffix is common |
| CommonEnds.SuffixStops | common/chat-auto-parser-helpers.cpp:78-85 | no longer one is |
| DiffSplit.SegmentLoop | common/chat-auto-parser-helpers.cpp:104-139 | the four-cursor loop ends, in bounds, in the specified state |
| DiffSplit.PostLoop | common/chat-auto-parser-helpers.cpp:141-165 | the branches after the loop lead to the specified state |
| DiffSplit.CalculateDiffSplit | common/chat-auto-parser-helpers.cpp:87-207 | both inputs can be put together again from the result exactly when the run does not lose text |
| DiffSplit.LoopKeeps | common/chat-auto-parser-helpers.cpp:114-139 | every pass of the loop keeps the account: both inputs are what is collected around what lies between the cursors |
| DiffSplit.AfterLoopKeeps | common/chat-auto-parser-helpers.cpp:141-165 | the branches after the loop keep it when no consumed side is consumed again |
| DiffSplit.TrimConserves | common/chat-auto-parser-helpers.cpp:176-187 | moving the common ends of the remainders loses no text |
| DiffSplit.TrimTight | common/chat-auto-parser-helpers.cpp:175-183 | what trimming leaves of two texts shares no first and no last character; nothing is trimmed where a marker stands |
| DiffSplit.MiddlesDiffer | common/chat-auto-parser-helpers.cpp:87-207 | the middles of every split differ where they begin and end: no two equal segments face each other there, down to one equal text, which disappears, and texts share no first and no last character |
| DiffSplit.PlainSplits | common/chat-auto-parser-helpers.cpp:185-204 | where no difference is left the prefix is the left text; where right goes on from left the split is left and the rest |
| DiffSplit.EqualTexts | common/chat-auto-parser-helpers.cpp:185-190 | equal texts have no difference |
| DiffSplit.LossIff | common/chat-auto-parser-helpers.cpp:87-207 | for all texts, the split conserves both inputs if and only if no consumed side is consumed again, up to the case the last correction repairs |
| DiffSplit.LossExample | common/chat-auto-parser-helpers.cpp:122-165 | an input on which two different texts are reported as equal |
| DiffSplit.GuardedNeverLoses | common/chat-auto-parser-helpers.cpp:141-165 | with those branches guarded by the consumed flags nothing is ever lost |
| Affixes.UntilCommonPrefix | common/chat-auto-parser-helpers.cpp:210-234 | the code returns what precedes the first occurrence of the common prefix, and is the mirror image of the other function |
| Affixes.AfterCommonSuffix | common/chat-auto-parser-helpers.cpp:237-264 | the code returns what follows the last occurrence of the common suffix, and is the mirror image of the other function |
| Affixes.UntilIs | common/chat-auto-parser-helpers.cpp:210-234 | the result ends at an occurrence of the common prefix and there is none before; without one, or without a common prefix, it is empty |
| Affixes.AfterIs | common/chat-auto-parser-helpers.cpp:237-264 | the result begins behind an occurrence of the common suffix and there is none later; without one, or without a common suffix, it is empty |
| Affixes.Mirror | common/chat-auto-parser-helpers.cpp:210-264 | reversing all three arguments and the result turns one function into the other, with all not-found cases |
| Affixes.MirrorFind | common/chat-auto-parser-helpers.cpp:223-264 | the first occurrence in a text is the last one in its reverse |
| ToolTurns.ModelTurnBuilder.CollectResult | common/chat.cpp:1732-1765 | one tool message becomes the specified response, or a type error; what the response says is `ResponsesInOrder` |
| ToolTurns.ModelTurnBuilder.Collect | common/chat.cpp:1703-1730 | the builder takes exactly one turn, moves just behind it, and holds the fields of the merged message |
| ToolTurns.ConvertToolResponses | common/chat.cpp:1805-1825 | the rewrite ends and is the rendering of the conversation's blocks, or a type error |
| ToolTurns.BlocksTile | common/chat.cpp:1703-1825 | the blocks are the conversation in order: nothing lost, repeated or moved; each turn takes exactly the tool messages after its call, and only closing messages close |
| ToolTurns.RenderAllAt | common/chat.cpp:1805-1825 | message i of the result is the rendering of block i, there are no others, and messages outside turns are kept |
| ToolTurns.RenderAllIff | common/chat.cpp:1805-1825 | a conversation is rewritten exactly when each of its turns is |
| ToolTurns.RenderedIff | common/chat.cpp:1732-1765 | a turn is rewritten exactly when each response can be named: its call asks for a function, or for none and the call id is a string or missing |
| ToolTurns.TurnMessages | common/chat.cpp:1786-1803 | which messages are tool messages, call messages and closing messages, read off their fields |
| ToolTurns.ConversionKeepsCalls | common/chat.cpp:1805-1825 | the concatenated tool calls of all assistant messages are unchanged |
| ToolTurns.ResponsesInOrder | common/chat.cpp:1732-1765 | the i-th response answers the i-th tool message: with the value its content is the JSON text of, with the content if it is none, with null if there is none; it is named after the i-th call when that call asks for a function, after the call id otherwise |
| ToolTurns.MergedLookup | common/chat.cpp:1767-1784 | every field of a merged message, and that it has no other |
| ToolTurns.ContentIsTheClosingOne | common/chat.cpp:1703-1730 | a merged message has the content of its closing message only, the reasoning of its call message if that is a string, and the tool calls of its call message |
| ToolTurns.TextSurvivesIff | common/chat.cpp:1703-1784 | the content of a call message is found in the merged message if and only if the turn has a closing message with the same content |
| ToolTurns.TextLostExample | common/chat.cpp:1703-1784 | what a lone message with a tool call says is lost |
| LoraTensor.GetitemCommutes | convert_lora_to_gguf.py:59-115 | the factors that remain still fit together exactly when every leading axis keeps matching, and then stand for the subscripted product |
| LoraTensor.GetitemDefined | convert_lora_to_gguf.py:59-115 | where the product can be subscripted, the subscript leaves factors of the result if and only if rows and columns are slices and a lone integer fits A too |
| LoraTensor.AnswerDefined | convert_lora_to_gguf.py:46-115 | where the product can be subscripted, the class answers if and only if a lone integer fits A, and rows and columns are both slices, or both integers with the last sliced axis of A as long as the rank; the latter answer has an axis too many |
| LoraTensor.SelectionIs | convert_lora_to_gguf.py:72-112 | a slice selects every step-th position between its two ends in order, where negative ends count from the end of the axis |
| LoraTensor.PositionIs | convert_lora_to_gguf.py:67-71 | an integer names the position it counts to, from the front or from the end |
| LoraMisfits.SliceMisfit | convert_lora_to_gguf.py:72-76 | a slice of a leading axis along which A is broadcast leaves nothing of A and one matrix of B |
| LoraMisfits.TupleMisfit | convert_lora_to_gguf.py:99-112 | a tuple that shrinks a leading axis A has leaves A as it was |
| LoraMisfits.IntegerRaises | convert_lora_to_gguf.py:67-71 | the integer 1 on a broadcast axis raises, though the product has that entry |
| LoraTensor.AtCommutes | convert_lora_to_gguf.py:59-115 | selecting consistently in both factors is selecting in the product |
| LoraTensor.FullSelection | convert_lora_to_gguf.py:99-110 | a slice that keeps as many positions as there are keeps all of them |
| LoraEllipsis.EllipsisIff | convert_lora_to_gguf.py:78-95 | the class puts the subscripts of a tuple with an ellipsis on the right axes exactly when they land |
| LoraEllipsis.EllipsisCommutes | convert_lora_to_gguf.py:78-112 | when they land, the remaining factors stand for the tensor library's result on the product |
| LoraEllipsis.EllipsisDefined | convert_lora_to_gguf.py:78-112 | where the subscripts land and the product has the result, the class answers if and only if rows and columns are slices, and the answer can be multiplied if and only if every leading axis keeps matching |
| LoraEllipsis.EllipsisMisplaced | convert_lora_to_gguf.py:80-95 | on every tensor of three axes with more than one row the result has another shape than the tensor library's |
| LoraOps.ReshapeCommutes | convert_lora_to_gguf.py:137-161 | a reshape that keeps the row size, with -1 expanded, commutes with the product |
| LoraOps.ReshapeForces | convert_lora_to_gguf.py:137-161 | a reshape the library accepts on the factors forces A to be one matrix and the row count to match |
| LoraOps.ReshapeDefined | convert_lora_to_gguf.py:137-161 | the class reshapes if and only if the product can be reshaped, the row size stays and A is one matrix |
| LoraOps.ExpandedShape | convert_lora_to_gguf.py:148-153 | given dimensions are kept, and a -1 becomes what keeps the number of entries |
| LoraOps.PermuteCommutes | convert_lora_to_gguf.py:169-180 | every supported permutation, with negative axis numbers, commutes with the product |
| LoraOps.PermuteDefined | convert_lora_to_gguf.py:169-180 | the class permutes if and only if the product can be permuted and is a matrix, or the last axis stays and A is one matrix |
| LoraOps.AxisIs | convert_lora_to_gguf.py:171 | an axis number counts from the front or from the end, or one length further on |
| LoraOps.TransposeCommutes | convert_lora_to_gguf.py:182-186 | every transposition of two axes the class supports, negative axis numbers included, gives the product with those axes swapped |
| LoraOps.TransposeDefined | convert_lora_to_gguf.py:182-186 | the class transposes if and only if both axes exist and the tensor is a matrix, or A is one matrix and the last axis stays |
| LoraOps.SwapPermutes | convert_lora_to_gguf.py:182-186 | permuting by the list with two numbers exchanged is exchanging the two axes |
| LoraOps.StackCommutes | convert_lora_to_gguf.py:207-215 | stacking the factors stacks the products |
| LoraOps.CatCommutes | convert_lora_to_gguf.py:216-225 | joining both factors joins the products when no A is broadcast along the joined axis |
| LoraOps.CatIff | convert_lora_to_gguf.py:216-225 | that condition is exact |
| LoraMisfits.CatMisfit | convert_lora_to_gguf.py:216-225 | joining two tensors over which A is broadcast leaves four matrices of B and two of A |
| LoraOps.CatSharedA | convert_lora_to_gguf.py:226-232 | with equal factors A, joining the factors B joins the products |
| LoraExpr.OpCommutes | convert_lora_to_gguf.py:59-186 | each operation on one tensor (subscripts, an ellipsis, reshape, permute, transpose) commutes with the product |
| LoraExpr.StackDefined | convert_lora_to_gguf.py:207-215 | the class stacks if and only if the products stack and ranks and leading axes of A agree |
| LoraExpr.CatDefined | convert_lora_to_gguf.py:216-225 | with leading axes the class joins if and only if the products join, and ranks and the leading axes of A behind the first agree |
| LoraExpr.CatMatricesDefined | convert_lora_to_gguf.py:226-232 | matrices are joined if and only if the products join and all factors A are equal |
| LoraExpr.StackRespectsSame | convert_lora_to_gguf.py:207-215 | tensors with the same entries stack to tensors with the same entries |
| LoraExpr.CatRespectsSame | convert_lora_to_gguf.py:216-232 | tensors with the same entries join to tensors with the same entries |
| LoraExpr.ExprCommutes | convert_lora_to_gguf.py:46-232 | any expression of these operations, stacks and joins, evaluated on factors and then multiplied, is the expression evaluated on full tensors |
| LoraExpr.HeadsArePermuted | convert_hf_to_gguf.py:2940-2945 | the permutation of attention heads is supported on every low-rank matrix whose row count is a multiple of twice the head count, and commutes with the product |
| Utf8.DecodeEncoded | common/console.cpp:365-430 | decoding at the start of an encoding gives the code point and its length back, whatever stands around it |
| Utf8.EncodingForm | common/console.cpp:411-430 | the length of every encoding, the range of its first byte, and that its free bits are the code point (section 3 of RFC 3629) |
| Utf8.DecodesSequences | common/console.cpp:365-409 | an announced number of continuation bytes is read as one character, and anything else as one replaced byte |
| Utf8.PrevUtf8CharPos | common/console.cpp:432-439 | the loop finds the start of the character before a position |
| Utf8.NextUtf8CharPos | common/console.cpp:441-448 | the loop finds the start of the character after a position |
| Utf8.StepsAreCodePoints | common/console.cpp:432-448 | on a well-formed line one step in the bytes is one code point, in both directions |
| Utf8.StartsOfText | common/console.cpp:411-430 | a well-formed line has as many starting bytes as code points |
| LineEditor.HistoryRoundTrip | common/console.cpp:699-751 | going up any number of existing entries and down as often restores the edited line |
| LineEditor.HistoryEnds | common/console.cpp:714-739 | the oldest entry stays, and without history or viewing nothing is shown |
| LineEditor.InsertedIsUndone | common/console.cpp:930-991 | an inserted code point stands at the cursor, all others keep their order, and backspace, or a step back and delete, takes it out again |
| LineEditor.RemovedIsPutBack | common/console.cpp:456-957 | what backspace or delete takes out can be put back; at the ends of the line they do nothing |
| LineEditor.CursorKeys | common/console.cpp:529-664 | cursor keys change nothing but the cursor, and a step back undoes a step |
| LineEditor.WordKeys | common/console.cpp:581-664 | the word keys pass white space and one whole word, to its start, or behind the white space after it |
| LineEditor.CompletedCursor | common/console.cpp:497-527 | the cursor of a completion stops at the last code point that begins at or before the byte given, and at the end for a negative one |
| LineEditor.History.Add | common/console.cpp:703-713 | a line is added unless it is empty or repeats the last entry, nothing else changes in the entries, and viewing ends unless the line is empty |
| LineEditor.History.Prev | common/console.cpp:714-726 | the entry before the viewed one, staying at the first |
| LineEditor.History.Next | common/console.cpp:727-739 | the entry after the viewed one, or the line that was being edited |
| LineEditor.LineEditor.InsertCharacter | common/console.cpp:958-991 | inserting a code point does on bytes, widths and both cursors what inserting does on the text; a number that is none leaves a line no text fits |
| LineEditor.LineEditor.BackspaceKey | common/console.cpp:930-957 | the same for backspace |
| LineEditor.LineEditor.DeleteAtCursor | common/console.cpp:456-482 | the same for delete |
| LineEditor.LineEditor.MoveLeft | common/console.cpp:838-843 | the same for a step to the left |
| LineEditor.LineEditor.MoveRight | common/console.cpp:847-852 | the same for a step to the right |
| LineEditor.LineEditor.MoveToLineStart | common/console.cpp:529-537 | the same for home |
| LineEditor.LineEditor.MoveToLineEnd | common/console.cpp:539-547 | the same for end |
| LineEditor.LineEditor.MoveWordLeft | common/console.cpp:581-617 | the cursor goes to the start of the word before it |
| LineEditor.LineEditor.MoveWordRight | common/console.cpp:619-664 | the cursor goes behind the next word and the white space after it |
| LineEditor.LineEditor.SetLineContents | common/console.cpp:497-527 | a replaced line is measured again and the cursors stop at the same code point |
| LineEditor.LineEditor.HistoryPrev | common/console.cpp:770-779 | the same for the entry before |
| LineEditor.LineEditor.HistoryNext | common/console.cpp:780-788 | the same for the entry after |
| LineEditor.LineEditor.ReadLine | common/console.cpp:753-999 | after any sequence of keys the line is the encoding of the plain editor's text, with one width for each code point and the byte cursor at the offset of the character cursor |
| Glob.GlobClassMatch | common/common.cpp:664-702 | the scan of a class body decides whether some single or span covers the character, negated or not |
| Glob.ClassLists | common/common.cpp:664-702 | a class lists the items it is written with; a bracket or dash in front stands for itself |
| Glob.SpanOrder | common/common.cpp:664-702 | spans are ordered as signed characters |
| Glob.NegationFlips | common/common.cpp:667-672 | a leading exclamation mark gives the other characters |
| Glob.GlobMatch | common/common.cpp:751-753 | the matcher ends and answers true exactly when the text can be cut into one fitting piece for each pattern token |
| Glob.TokensOfPattern | common/common.cpp:705-749 | every list of tokens that can be written is read back from its pattern |
| Glob.SlashesAreWritten | common/common.cpp:714-728 | without `**` and classes every slash of a matching text stands for one written in the pattern |
| Glob.Match | common/common.cpp:705-749 | the same for every remaining pattern and text |
| Glob.MatchStar | common/common.cpp:714-721 | the inner loop of `*` tries exactly the slash-free pieces |
| Glob.DeepStep | common/common.cpp:708-713 | `**` matches an empty piece, or one character more |
| Glob.OneChar | common/common.cpp:722-746 | a one-character token takes exactly the first character |
| Glob.StarPiece | common/common.cpp:714-721 | a `*` piece cannot reach past the first slash |
| Escapes.DecodeOne | common/common.cpp:584-612 | one round writes what the escape stands for, behind the read position, and leaves the unread bytes alone |
| Escapes.ProcessEscapes | common/common.cpp:581-616 | decoding in the buffer gives what decoding into a text of its own gives |
| Escapes.DecodeOfEscaped | common/common.cpp:581-616 | decoding undoes escaping, for every byte string |
| Escapes.SpellingsDecode | common/common.cpp:581-616 | however the bytes of a text are spelled, by escape letters, hex digits of either case, or as they are, decoding gives the text |
| Escapes.OtherEscapes | common/common.cpp:584-612 | what is no escape stays as it is, and so does a backslash at the end |
| Escapes.LooseHex | common/common.cpp:597-605 | a space or a sign is taken for the first hex digit |
| Escapes.DecodedSize | common/common.cpp:581-616 | decoding never lengthens and leaves texts without backslashes alone |
| Base64.Encode | common/base64.hpp:80-144 | the loop computes the encoding, of exactly the required size |
| Base64.EncodedSize | common/base64.hpp:338-341 | the size formula is exact |
| Base64.LetterTable | common/base64.hpp:80-144 | the two alphabets of RFC 4648 |
| Base64.GroupDigits | common/base64.hpp:80-144 | the characters of each group are the base 64 digits of its bytes read as one number, with padding for missing bytes |
| Base64.Decode | common/base64.hpp:200-244 | the loop computes the decoding, within the maximal size, and fails exactly on what is not accepted |
| Base64.DecodeOneInPlace | common/base64.hpp:294-313 | one character adds at most one byte, which lands at or before the character just read; everything behind it is left for reading |
| Base64.DecodeInPlace | common/base64.hpp:294-313 | decoding into the buffer's own front gives the same bytes, and nothing behind them changes |
| Base64.DecodedSize | common/base64.hpp:324-327 | decoding never exceeds the maximal size |
| Base64.AcceptedIff | common/base64.hpp:200-244 | accepted are characters of one alphabet, then padding, and in strict mode nothing else after padding |
| Base64.RoundTrip | common/base64.hpp:80-389 | decoding an encoding with a compatible detected alphabet returns the input, in either mode |
| Base64.DecodeOfEncode | common/base64.hpp:80-389 | the round trip for both alphabets, given or detected |
| Base64.EncodingIsInjective | common/base64.hpp:80-144 | different byte strings have different encodings |
| LegacyLayout.GGMLModel.LoadVocab | convert_llama_ggml_to_gguf.py:84-98 | the loop reads the specified vocabulary, or fails where it fails |
| LegacyLayout.GGMLModel.LoadTensors | convert_llama_ggml_to_gguf.py:187-195 | the loop reads all tensor records, and the name map holds the last of each name |
| LegacyLayout.GGMLModel.LoadModel | convert_llama_ggml_to_gguf.py:145-200 | loading sets every field as specified, or fails where the specification fails |
| LegacyLayout.TensorsAreWellLaid | convert_llama_ggml_to_gguf.py:110-131 | payload ranges are ascending and disjoint, and aligned with padding |
| LegacyLayout.LittleEndian | convert_llama_ggml_to_gguf.py:59-68 | numbers are little-endian, and are read exactly where four bytes are left |
| LegacyLayout.HeaderReadIff | convert_llama_ggml_to_gguf.py:145-166 | exactly which headers are accepted, and as what |
| LegacyLayout.HyperFields | convert_llama_ggml_to_gguf.py:59-68 | each hyperparameter is the number at its own place |
| LegacyLayout.HyperReadIff | convert_llama_ggml_to_gguf.py:59-73 | they are refused only for want of bytes or for an unknown file type |
| LegacyLayout.ConvertedTypes | convert_llama_ggml_to_gguf.py:27-178 | the file types there are, and exactly which of them each format version converts |
| LegacyLayout.ItemReadIff | convert_llama_ggml_to_gguf.py:84-98 | exactly when a word is read, and its text, score and end |
| LegacyLayout.RecordReadIff | convert_llama_ggml_to_gguf.py:110-131 | exactly when a tensor record is read |
| LegacyLayout.RecordFields | convert_llama_ggml_to_gguf.py:110-131 | every field of a record that is read, in its place, with the payload behind the padding |
| LegacyLayout.BlockSizes | gguf-py/gguf/constants.py:4259-4273 | the sizes of the quantization blocks as bits for each weight and bytes for the scales |
| LegacyLayout.LoadedPayloads | convert_llama_ggml_to_gguf.py:180-200 | the same for every file that loads, aligned to 32 in GGJT files; reading stops at or after the file end |
| LegacyLayout.ReadWrittenTensor | convert_llama_ggml_to_gguf.py:110-131 | a written record and payload are read back, with the payload where the table says |
| LegacyLayout.LoadOfWrite | convert_llama_ggml_to_gguf.py:53-200 | writing any header, vocabulary and tensor table and loading it returns the same table, stops exactly at the file end, and takes the feed-forward size from the second dimension of the last tensor of that name; without one, or without a second dimension, loading fails |
| CpuMask.ParseCpuMask | common/common.cpp:325-359 | every entry is on afterwards exactly when it was on or its bit of the number is one; it succeeds exactly on hex digits, and on a bad digit keeps the bits of the digits before it |
| CpuMask.DigitsOf | common/common.cpp:325-340 | the prefix is optional, and digits beyond the mask are left out |
| CpuMask.BitsOfNumber | common/common.cpp:336-355 | bit j of the number is bit j mod 4 of the digit j / 4 places from the end, for every position |
| CsvRow.ParseCsvRow | common/arg.cpp:944-981 | the loop computes the fields; there is one more than commas outside quotes |
| CsvRow.FieldCount | common/arg.cpp:944-981 | that count from every state of the parser |
| CsvRow.FieldsKeep | common/arg.cpp:944-981 | no character is lost: joining the fields gives the row without its quotation marks |
| CsvRow.RoundTrip | common/arg.cpp:941-981 | parsing a written row gives its fields back, for any mixture of quoted and bare fields |
| CsvRow.PlainRow | common/arg.cpp:944-981 | without quotes a row is cut at its commas and nothing else |

## Left out

* The JSON library's internals: it is modelled as a reader and an escaper for RFC 8259. Number values (kept as
  text), number overflow, invalid UTF-8, duplicate keys and nesting limits are not modelled.
* Characters are code points in the chat modules and bytes elsewhere; escaping of invalid UTF-8 is not modelled.
* The PEG parser and its grammars: syntax trees are the input; the gemma4 rules are the shape of finished trees.
* The fields of a chat message other than reasoning, content and tool calls, and content parts.
* The parse in `task_result_state::update_chat_msg`: the parsed message is a parameter.
- ChatStream.FilteredClientFollows: asks that names that were sent stay, because a name is sent once and the client keeps the old one otherwise (`ChatFilter.FollowsIff`).
- PythonLiterals.ReadPython: does not read the escapes that only Python has (`\a`, `\v`, `\x`, octal, `\N`, `\U`, a continued line), which JSON readers refuse, nor escaped halves of surrogate pairs, which Python keeps apart and a JSON reader joins or refuses; neither is portable.
- PythonValues.ConvertedParses: covers numbers as JSON spells them, because no others are JSON.
- ToolCallRuns.RunKeepsInv: a run may end in an empty bare value or an unfinished container, but does not go on behind it, because it leaves no JSON value behind; the state machine itself covers what comes then.
- ToolCallStreaming.LongerRunExtends: covers a growing bare value only while its form stays, because the code revises what it wrote otherwise (`ToolCallStreaming.BareGrowsIff`).
- Gemma4Json.RoundTrip: does not cover a vertical tab or form feed after a scalar, which the grammar takes in as white space and a JSON reader does not.
- LoraTensor.GetitemCommutes: does not cover tensors as subscripts, nor integer subscripts for rows or columns that happen to leave factors of equal dimension, because the result then stands for no subscript of the product.
- LoraEllipsis.EllipsisIff: covers tuples with one ellipsis, because the tensor library gives several no meaning.
- LoraOps.CatIff: does not cover factors B that are empty along the joined axis, because an empty tensor adds nothing to either side.
* Tensor element types and rounding: entries are integers, and products are exact.
* Terminal output: escape sequences, redrawing, width probing and the echo of a trailing `\` or `/`. The width the
  terminal reports and the white-space test are parameters, and so are the keys that are read.
- LineEditor.LineEditor.ReadLine: takes code points only as input and well-formed completions, because a line that is no encoding stands for no text.
* The end of a line (what Enter, a trailing `\` and multi-line input do) and adding it to the history, except `LineEditor.History.Add` itself.
* Base64 iterators: the input is a sequence and the output a sequence, or both are one array.
- LegacyLayout.LoadOfWrite: does not model 64-bit overflow of element counts, which numpy wraps; score bytes are compared as bytes.
* Writing the GGUF file, its parameters, vocabulary and tensors in the legacy converter.
- DiffSplit.GuardedSplitOf: is not in the source; it is the split with the branches after the loop guarded, stated to show what the guard is worth.
* Jinja templates, template detection, the auto-parser's generator and analyzer: heuristics over an engine that is not part of this model.
* Option tables and handlers, downloads, model set-up, sampling, threading and all floating-point code.
