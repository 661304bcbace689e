# Verified models of llama.cpp's text, tensor and file code

The project models the parts of the repository that turn one representation into another and that
other code relies on without checking: the mapper that builds tool calls while a reply is still being
parsed and the deltas sent to clients, the server's stop words, factored LoRA tensors, the storage
owned by prompt checkpoints, the marker-aligned diff of the template analyser, base64, glob patterns,
backslash escapes, CSV rows, and the loader of legacy GGML files. All statements are for all inputs,
all states or all runs.

`dafny verify dfyconfig.toml` checks the whole project.

## Layout

| files | what they model |
|---|---|
| `Basics` | what several models share |
| `JsonText`, `JsonValue` | JSON string escaping (section 7 of RFC 8259), the scanner that counts braces outside strings, values, and a reader used as an inverse |
| `PythonLiterals`, `PythonWords`, `PythonValues`, `PythonCuts` | rewriting Python literals to JSON; what becomes of words and of whole values; idempotence and cuts |
| `ChatMapper`, `ChatTexts`, `ChatCalls`, `TaggedCalls` | the mapper as a machine over tagged nodes; the texts and calls that its message gets |
| `ChatGrowth`, `ChatCuts` | when the message only grows |
| `ChatDiff`, `ChatDeltas`, `ChatStream`, `ChatReplies` | deltas between messages, when there are any, call ids, streams of any messages, and streams of replies |
| `Gemma4`, `GemmaStreams` | the printer of Gemma 4 value trees, complete and while they are being received |
| `PartialStop`, `StopWords` | the search for the beginning of a stop word, and token-by-token runs of the server |
| `Tensors`, `Lora` | row-major tensors over the reals, and pairs (A, B) that stand for B·A |
| `LoraShapes`, `LoraReshape`, `LoraParts`, `LoraSplit`, `LoraCat`, `LoraStack` | permuting, reshaping, splitting, concatenating and stacking pairs |
| `LoraIndex`, `LoraItems`, `LoraKeys`, `LoraGetItem`, `LoraEllipsis` | indexing pairs with integers, slices, tuples and ellipses |
| `LoraElements` | what these operations do to elements, positions and sizes |
| `LoraRuns` | runs of all these operations on one pair |
| `Checkpoints`, `CheckpointContents`, `CheckpointObjects` | checkpoint values and programs over them; what each checkpoint then holds; the class itself and programs over its objects |
| `Segments`, `DiffSplit`, `SegmentLaws`, `DiffSplitExact` | markers in a text and the diff of two texts |
| `Base64`, `Base64Groups`, `Base64Laws` | encoding and decoding, specified by the numbers they write; the same text group by group |
| `Glob`, `GlobLaws`, `Escapes`, `Csv` | pattern matching and what patterns stand for, in-place unescaping, row parsing |
| `GgmlFile`, `GgmlLaws`, `GgmlImages`, `GgmlFormats` | the loader; when it ends and what it finds; the files it reads back and one it never ends on; the versions and types it takes |

Code that changes state is written as classes or as methods with loops, each proved equal to a
function of the old state; the laws are about those functions.

## Where the code does not do what one would expect

Each of these is proved; where a property holds of some inputs only, a concrete input on which it fails and
the exact condition are given.

- A node can replace visible tool-call text instead of extending it: a second argument object
  (`ChatCuts.SecondObjectOverwrites`), a second name (`ChatCuts.SecondNameOverwrites`), or the close of a
  call with an empty name (`ChatCuts.NamelessCloseOverwrites`), where the text does not continue the old
  one. Messages of a reply's prefixes only grow if and only if no node does that
  (`ChatCuts.PrefixesGrowExactly`), and a stream is rebuilt by its client if and only if its messages
  grow (`ChatStream.StreamExact`).
- A text that gets shorter is not taken back: the client gets an empty delta, or none for a call's
  arguments, and keeps what it had (`ChatDeltas.ClientAfter`; `ChatDeltas.DiffsSucceed` says exactly when
  deltas can be computed at all, and which error is thrown otherwise).
- A string value that continues an open string and is cut down to nothing gives back a quote and
  shrinks (`ChatCuts.ContinuedStringShrinks`, exact condition in `ChatCuts.CutGrowsExactly`).
- The flush of a pending call at the end of a parse can never add a call (`ChatMapper.FlushIsDead`).
- Rewriting a cut input gives no prefix of the whole output when the cut falls between a backslash and
  the single quote it escapes, or inside a bare word that only starts like `True`, `False` or `None`
  (`PythonCuts.CutExact`, `PythonCuts.CutCanShrink`).
- The two-ended diff counts a segment twice on `<a><b>` against `<a><b><b>`
  (`DiffSplitExact.RepeatedMarkerLost`, exact condition in `DiffSplitExact.SplitExact`).
- A stop word that ends inside a token which leaves an incomplete UTF-8 character behind it is not
  found at that token and is sent to the client; a later token that is long enough can still bring a
  held-back word into the window (`StopWords.MissedStopWord`, exact condition in
  `StopWords.WindowExact` and `StopWords.StepStop`).
- A bare slice of a pair of more than two axes also slices a shared A and leaves nothing of it
  (`LoraGetItem.SharedSliceLost`, exact condition in `LoraGetItem.SliceExact`), and a bare integer is
  refused there (`LoraGetItem.SharedIntRefused`, `LoraGetItem.IntExact`).
- An ellipsis in front of other entries stands for as many axes as the tuple has other entries, so
  `l[..., 0:1]` of three axes takes rows where columns are meant (`LoraEllipsis.DotsTakeRows`, exact
  condition in `LoraEllipsis.DotsExact`).
- An axis number below minus the number of axes is counted from the end twice by `split`: `split(k, -6)`
  splits the first of three axes (`LoraSplit.TwiceFirst`), and along rows or columns parts can be lost
  without a word (`LoraSplit.RowLost`). What such a number does is stated exactly in
  `LoraSplit.TwiceBatch`, `LoraSplit.TwiceRowsOfOne`, `LoraSplit.TwiceRows`, `LoraSplit.TwiceOneColumn`
  and `LoraSplit.TwiceColumns`.
- A pair accepts some axis numbers and shapes that tensors refuse: numbers from the number of axes on in
  `permute` (`LoraShapes.PermuteBeyond`, exact condition in `LoraShapes.PermuteExact`) and several -1 in
  `reshape` (`LoraReshape.TwoUnknown`, exact condition in `LoraReshape.SeveralUnknown`).
- Concatenating pairs of more than two axes that share their A gives no pair
  (`LoraStack.SharedCatRefused`, exact condition in `LoraStack.CatExact`).
- The legacy loader computes sizes in wrapping 64-bit arithmetic, so that a tensor record can have a
  size of minus its own length. A whole file on which loading never ends is given by
  `GgmlImages.LoadsForever`; loading never ends if and only if the loop reaches an offset twice
  (`GgmlImages.EndlessExactly`), and reading goes back exactly behind such a record or one whose data
  end past the largest offset (`GgmlLaws.GoesBackExactly`). Sizes are right exactly when they fit
  (`GgmlLaws.ByteCountExact`).
- The glob class `[!]` matches every character, a slash included (`Glob.EmptyNegation`); the comment in
  the source only says that `]` after the negation is a literal.

The printer of Gemma 4 values closes no string node that lacks its content child. The grammar builds
that child in every complete string node, for an empty string too (common/chat.cpp:1145-1146,
common/peg-parser.cpp:825-845), so only partial nodes come that way; `Gemma4.PrintsExactly` says what
such a node would cost.

## Model

| member | source | states |
|---|---|---|
| `JsonText.CountBraces` | common/chat-peg-parser.cpp:41-67 | the loop returns the depth of the scanner machine that ignores braces inside strings and honours backslash escapes |
| `JsonText.ScanEscape` | common/chat-peg-parser.cpp:70-76 | escaped text, whatever it contains, leaves the brace scanner inside the string and at the same depth |
| `JsonText.EscapePrefix` | common/chat-peg-parser.cpp:70-76 | a string cut short escapes to a prefix of the whole string's escape |
| `JsonText.ReadEscaped` | common/chat-peg-parser.cpp:70-76 | a JSON string reader undoes escaping for every string |
| `JsonText.EscapedAs` | common/chat-peg-parser.cpp:70-76 | quotes, backslashes and five controls are escaped by the letters of section 7 of RFC 8259, other controls by four digits, and nothing else is escaped |
| `JsonValue.SerializeBalanced` | common/chat-peg-parser.cpp:41-67 | every serialised value leaves the brace scanner where it found it |
| `JsonValue.ReadSerialized` | common/chat-peg-parser.cpp:70-76 | a JSON reader recovers every value from its serialisation, in front of any text that does not continue it |
| `PythonLiterals.Turn` | common/chat-peg-parser.cpp:92-182 | one turn of the rewriting loop takes, writes and flags what the machine's turn does |
| `PythonLiterals.NormalizeQuotes` | common/chat-peg-parser.cpp:83-185 | the loop computes the rewriting, and its invariant keeps the JSON scanner of the output and the scanner of the input in step after every turn |
| `PythonLiterals.RewriteAgrees` | common/chat-peg-parser.cpp:83-185 | from any two scanner states that agree, output and input scanners agree at the end: inside a string together, at the same depth |
| `PythonLiterals.NormalizeBraces` | common/chat-peg-parser.cpp:83-185 | for every input the output's brace depth is the input's, counted outside its single- and double-quoted strings, and the output ends inside a string exactly when the input does |
| `PythonWords.WordsRewritten` | common/chat-peg-parser.cpp:156-179 | outside strings a word that begins True, False or None becomes as many letters of true, false or null, and every other word stays |
| `PythonWords.OthersKept` | common/chat-peg-parser.cpp:118-182 | between words every character but quotes and backslashes stays, and a word may begin behind it |
| `PythonValues.NormalizePython` | common/chat-peg-parser.cpp:83-185 | a value of any depth written in Python notation, each string in either kind of quotes and with any blanks behind commas and colons, is rewritten to the same value in JSON notation |
| `PythonValues.PythonReadsBack` | common/chat-peg-parser.cpp:83-185 | without blanks that is its serialisation, and a JSON reader gets the value back |
| `PythonValues.WordsCutShort` | common/chat-peg-parser.cpp:156-179 | True, False and None cut short give true, false and null cut short |
| `PythonCuts.NormalizeTwice` | common/chat-peg-parser.cpp:83-185 | rewriting is idempotent on every input |
| `PythonCuts.CutExact` | common/chat-peg-parser.cpp:83-185 | the output of an input cut at k is a prefix of the whole output if and only if the cut splits neither an escaped single quote nor a bare word that only starts like a literal |
| `PythonCuts.CutCanShrink` | common/chat-peg-parser.cpp:92-182 | both conditions are needed |
| `ChatMapper.CloseBraces` | common/chat-peg-parser.cpp:407-409 | the closing loop appends one brace for every brace left open |
| `ChatMapper.Mapper.constructor` | common/chat-peg-parser.cpp:277-418 | a new mapper has no call and an empty message |
| `ChatMapper.Mapper.Store` | common/chat-peg-parser.cpp:312-345 | writing through the current-tool pointer changes that call only |
| `ChatMapper.Mapper.StoreTarget` | common/chat-peg-parser.cpp:238-240 | argument text goes to the call when it has a name and to the buffer until then |
| `ChatMapper.Mapper.Name` | common/chat-peg-parser.cpp:320-336 | a named call becomes visible with the buffered arguments |
| `ChatMapper.Mapper.Close` | common/chat-peg-parser.cpp:395-418 | closing ends the open string, closes the braces, and discards a call without a name |
| `ChatMapper.Mapper.Map` | common/chat-peg-parser.cpp:277-418 | handling a node makes exactly the machine's step, and keeps the pointers valid |
| `ChatMapper.Mapper.Use` | common/chat-peg-parser.cpp:312-418 | the nodes that use the current call make exactly the machine's step |
| `ChatMapper.RunValid` | common/chat-peg-parser.cpp:277-418 | after any node sequence the current-tool pointer points to nothing, to the pending call or to a listed call |
| `ChatMapper.FlushIsDead` | common/chat-peg-parser.cpp:246-275 | the flush at the end of a parse never adds a call, for any node sequence |
| `ChatTexts.RunTexts` | common/chat-peg-parser.cpp:282-290 | after any nodes the content is the texts of the content nodes in order, and the reasoning those of the reasoning nodes |
| `ChatTexts.MessageTexts` | common/chat-peg-parser.cpp:246-290 | so are the finished message's, but that reasoning of blanks alone is dropped |
| `ChatCalls.TrimmedEnd` | common/chat-peg-parser.cpp:12-37 | all spaces at the end go, and nothing else |
| `ChatCalls.TrimmedName` | common/chat-peg-parser.cpp:12-37 | of an argument name one space in front goes and all at the end |
| `ChatCalls.QuotedId` | common/chat-peg-parser.cpp:312-318 | of a call's id the spaces at the end and one pair of quotes go |
| `ChatCalls.ObjectCall` | common/chat-peg-parser.cpp:304-418 | from any state a call whose arguments come as one object, its nodes in any order and repeated, is listed with its last name, its last id and its last object, closed |
| `ChatCalls.ObjectCallIs` | common/chat-peg-parser.cpp:304-418 | an id, a name and a complete object, in any order and with spaces behind each, are listed as just that |
| `ChatCalls.NamelessDiscarded` | common/chat-peg-parser.cpp:395-418 | a call that never gets a name leaves no trace in the message |
| `ChatCalls.BufferEmptied` | common/chat-peg-parser.cpp:320-403 | after any nodes no named call has text waiting in the buffer, and closing leaves none there and no string open |
| `ChatCalls.CloseTextDepth` | common/chat-peg-parser.cpp:402-409 | closing a call takes the brace depth of its arguments down to 0 where it is above, unless they end inside a string |
| `ChatCalls.StringClosedWithCall` | common/chat-peg-parser.cpp:388-406 | a string still open when its call is closed is closed with it, as by its own closing node |
| `ChatGrowth.NeverDangling` | common/chat-peg-parser.cpp:395-418 | a streamable reply never uses a call that was discarded |
| `ChatCuts.NodeGrowsExactly` | common/chat-peg-parser.cpp:277-418 | from any state the mapper can be in, a node makes the message grow if and only if it is not one of three overwriting nodes |
| `ChatCuts.PrefixesGrowExactly` | common/chat-peg-parser.cpp:246-418 | for every node sequence, the message of each prefix grows into that of each longer one if and only if no node overwrites visible text |
| `ChatCuts.StreamableSteady` | common/chat-peg-parser.cpp:277-418 | the tags alone can show that a reply overwrites nothing and uses no discarded call |
| `ChatCuts.SecondObjectOverwrites` | common/chat-peg-parser.cpp:338-345 | a second argument object that does not continue the first replaces visible text |
| `ChatCuts.SecondNameOverwrites` | common/chat-peg-parser.cpp:320-336 | a second name that does not continue the first replaces it |
| `ChatCuts.NamelessCloseOverwrites` | common/chat-peg-parser.cpp:395-418 | closing a listed call whose name is empty takes back its arguments |
| `ChatCuts.CutGrowsExactly` | common/chat-peg-parser.cpp:277-418 | from any reachable state, a streamed node cut short gives a message that grows into the whole node's if and only if a condition on state, tag and text holds |
| `ChatCuts.ValueCutExactly` | common/chat-peg-parser.cpp:366-386 | in a visible call a value node can be cut if and only if the cut is clean, or for a string does not empty a continued string |
| `ChatCuts.SnapshotGrows` | common/chat-peg-parser.cpp:246-418 | where no node overwrites, a snapshot cut short, in the last node too, gives a message that grows into the later one |
| `ChatCuts.ContinuedStringShrinks` | common/chat-peg-parser.cpp:366-386 | a continued string cut down to nothing makes the message shrink |
| `TaggedCalls.ArgumentsClosed` | common/chat-peg-parser.cpp:304-417 | from any state, with the name at any position among the argument nodes, strings and literals mixed and whatever their texts, the call's arguments are those in one object, closed by a brace for each left open |
| `TaggedCalls.TaggedCallBraces` | common/chat-peg-parser.cpp:358-409 | where no literal ends inside a string of its own, closing adds exactly one brace and one for each that the literals leave open |
| `TaggedCalls.TaggedCall` | common/chat-peg-parser.cpp:304-417 | where the arguments stand for JSON members, the call's arguments are exactly the serialised object of the trimmed names and the values |
| `TaggedCalls.StringsSpell` | common/chat-peg-parser.cpp:366-393 | string arguments stand for members whatever characters they contain |
| `TaggedCalls.PythonSpells` | common/chat-peg-parser.cpp:347-364 | a literal argument in Python notation stands for the member with its value |
| `TaggedCalls.TaggedCallReadsBack` | common/chat-peg-parser.cpp:304-417 | a JSON reader gets names and values back |
| `TaggedCalls.TaggedReply` | common/chat-peg-parser.cpp:246-417 | any number of such calls behind any other nodes add to the reply's message exactly themselves, in order |
| `TaggedCalls.SpelledReply` | common/chat-peg-parser.cpp:246-417 | with the serialised objects where the arguments stand for members |
| `ChatDiff.ComputeDiffs` | common/chat.cpp:153-219 | the computation returns the deltas or the error of the specification, in the source's order |
| `ChatDiff.StringDiffExact` | common/chat.cpp:54-67 | the text delta exists and completes the old text if and only if the old text is a prefix of the new one |
| `ChatDiff.DiffsExact` | common/chat.cpp:153-219 | the deltas can be computed and a client rebuilds the new message from them if and only if the new message extends the old one |
| `ChatDeltas.StringDiffIs` | common/chat.cpp:54-67 | a text that goes on is completed, a text that gets shorter gets an empty delta, and any other is refused |
| `ChatDeltas.DiffsSucceed` | common/chat.cpp:153-219 | deltas can be computed if and only if texts, number of calls, and the last old call's name and arguments go on or are taken back; otherwise the first of these in this order gives the error |
| `ChatDeltas.DeltasAre` | common/chat.cpp:153-219 | there is one delta for a changed reasoning, then one for a changed content, one for a changed last call, and one for each new call, each with exactly what it must say |
| `ChatDeltas.ClientAfter` | common/chat.cpp:153-219 | whenever deltas can be computed, the client keeps what was taken back and has all else as it is in the new message |
| `ChatDiff.ApplyNew` | tests/test-chat.cpp:1077-1102 | the deltas of new calls add exactly those calls to the client's message |
| `ChatStream.SetToolCallIds` | common/chat.h:106-118 | the cache keeps what it has, gets an id for every further call, and every call carries the cached id |
| `ChatStream.Task.constructor` | tools/server/server-task.cpp:171-190 | a new task has an empty message and no ids |
| `ChatStream.Task.UpdateChatMsg` | tools/server/server-task.cpp:171-190 | an update takes over the snapshot's message with its ids, ignores an empty message, and returns the deltas |
| `ChatStream.Task.Update` | tools/server/server-task.cpp:171-190 | the same for any message at all |
| `ChatStream.UpdateExact` | tools/server/server-task.cpp:171-190 | for any message an update fills the cache, and delivers the message it then holds if and only if that grows out of the one before |
| `ChatStream.StreamRebuilds` | common/chat.cpp:153-219 | over any run of growing messages no diff throws and after each of them the deltas in order have rebuilt the server's message with its ids |
| `ChatStream.StreamExact` | common/chat.cpp:153-219 | for any messages whatever, no diff throws and client and server agree after every one if and only if each message the server holds grows out of the one before |
| `ChatStream.StreamOnlyGrows` | common/chat.h:106-118 | from any point of a run to its end calls keep their ids, calls but the last are frozen, texts only get longer, and no delta is taken back |
| `ChatReplies.ReplyStreams` | common/chat-peg-parser.cpp:246-418 | snapshots of a reply, each the next one cut short and none overwriting visible text, give a growing run |
| `ChatReplies.StreamableReply` | common/chat-peg-parser.cpp:246-418 | the same for a reply whose tags alone are in order, which also uses no discarded call |
| `ChatReplies.PrefixStreamExact` | common/chat-peg-parser.cpp:246-418 | with a snapshot after every node, the client has the server's message at every point if and only if no node overwrites visible text |
| `Gemma4.Print` | common/chat-peg-parser.cpp:926-1019 | the recursive printer, with its loops over children, computes the specified text |
| `Gemma4.PrintJoined` | common/chat-peg-parser.cpp:950-1008 | the loop over children puts a comma between each two |
| `Gemma4.PrintsExactly` | common/chat-peg-parser.cpp:926-1019 | a complete tree is printed as its value's JSON serialisation if and only if every string node has its content child, and a quote short for each that has none |
| `Gemma4.CompleteTree` | common/chat-peg-parser.cpp:926-1019 | of a complete tree as the grammar builds it a JSON reader gets the value back, and the brace depth is 0 |
| `Gemma4.PartialTree` | common/chat-peg-parser.cpp:926-1019 | what is printed for a partial tree is a prefix of what is printed for any completion of it |
| `GemmaStreams.PrintsClosed` | common/chat-peg-parser.cpp:926-1019 | completing every node of a tree that is being received adds exactly its closing marks to what is printed |
| `GemmaStreams.ClosersClose` | common/chat-peg-parser.cpp:926-1019 | closing marks are quotes, colons behind them, and brackets |
| `GemmaStreams.StreamedText` | common/chat-peg-parser.cpp:926-1019 | so what is printed for a tree that is being received lacks nothing of its value's serialisation but closing marks |
| `GemmaStreams.TreeIsWhole` | common/chat-peg-parser.cpp:926-1019 | every value has a complete tree with no string node lacking its content child, so that it is printed whole |
| `PartialStop.FindPartialStop` | common/common.h:835-848 | the descending search returns the first position from which the text is the beginning of the stop word |
| `PartialStop.FirstBegunIsFirst` | common/common.h:835-848 | no earlier position begins the stop word, so the ending found is the longest |
| `PartialStop.BegunExactly` | common/common.h:835-848 | a position begins the stop word if and only if some continuation puts the whole word there, reaching the end of the text |
| `PartialStop.NothingBefore` | common/common.h:835-848 | for every continuation an occurrence that reaches the end of the text starts at or after the position found, and outside the text when nothing was found |
| `PartialStop.PositionTight` | common/common.h:835-848 | some continuation does put the word at the position found |
| `StopWords.FindStoppingStrings` | tools/server/server-context.cpp:716-745 | the loop over the stop words returns the earliest find, and for a full stop the word that stands there |
| `StopWords.WindowExact` | tools/server/server-context.cpp:716-745 | the windowed search finds the first stop word of a text if and only if one that stands there ends in the last token or right before it |
| `StopWords.ServerSlot.constructor` | tools/server/server-context.cpp:495-506 | a new slot has no text and nothing sent |
| `StopWords.ServerSlot.ProcessToken` | tools/server/server-context.cpp:2595-2644 | processing a token makes exactly the specified step: cut, hold back or send |
| `StopWords.ServerSlot.CutOrSend` | tools/server/server-context.cpp:2616-2635 | text is cut at a stop word, held back while one may be beginning, and sent otherwise or at the end of generation |
| `StopWords.StepStop` | tools/server/server-context.cpp:2610-2635 | when a stop word stands in the text, the text is cut before the first one if and only if that one ends late enough, and then exactly what precedes it has been sent |
| `StopWords.RunExact` | tools/server/server-context.cpp:2595-2644 | over any run whose stop words end late enough, the text is that before the first stop word, all of it sent and nothing else; until then nothing sent can become part of a stop word, and an ending token sends the rest |
| `StopWords.WholeRunExact` | tools/server/server-context.cpp:2595-2644 | the same for every run whose tokens leave complete text, without a condition |
| `StopWords.HeldBackExactly` | tools/server/server-context.cpp:2616-2635 | after a token that leaves complete text without a stop word, all of the text has been sent if no stop word has begun in what was not sent before, and nothing more is sent otherwise |
| `StopWords.RunPrompt` | tools/server/server-context.cpp:2595-2644 | over any run of such tokens nothing is held back unless a stop word has begun in it |
| `StopWords.MissedStopWord` | tools/server/server-context.cpp:2607-2616 | a stop word ending before an incomplete character is missed and sent |
| `Tensors.FlatUnflat` | convert_lora_to_gguf.py:137-162 | row-major positions of valid indices are inside the data and reading them back is exact |
| `Lora.DenseAt` | convert_lora_to_gguf.py:122-125 | an element of the dense tensor is the sum over the rank of B's and A's elements, batch axes of length 1 shared |
| `Lora.DenseFlat` | convert_lora_to_gguf.py:122-125 | with a shared A the dense data is, row by row, that of one matrix product |
| `LoraReshape.ReshapeCommutes` | convert_lora_to_gguf.py:137-161 | reshaping the pair is giving the dense tensor the shape with every -1 filled in; a tensor given the same entries does the same, or refuses them where several are -1 |
| `LoraReshape.ReshapeAccepts` | convert_lora_to_gguf.py:137-161 | the pair accepts a shape if and only if it has at least two axes, keeps the row length and, unless the rank is 0, the number of rows |
| `LoraReshape.ReshapeAgrees` | convert_lora_to_gguf.py:137-161 | given entries with at most one -1 the pair accepts what the dense tensor accepts, with two axes or more and the same row length |
| `LoraReshape.SeveralUnknown` | convert_lora_to_gguf.py:147-152 | of the shapes with several -1 that keep the row length the pair accepts exactly those whose other entries already have the tensor's size, or any that divide it where it is empty |
| `LoraReshape.TwoUnknown` | convert_lora_to_gguf.py:147-152 | a pair of one row accepts -1, -1 and its columns, which the dense tensor refuses |
| `LoraShapes.PermuteCommutes` | convert_lora_to_gguf.py:169-180 | permuting the pair is permuting the dense tensor by the axes written as negative numbers; a tensor given the same numbers does the same, or refuses those out of its range |
| `LoraShapes.PermuteExact` | convert_lora_to_gguf.py:169-180 | the pair accepts an order of axes if and only if, written as negative numbers, it is one and keeps the last axis of a shared A or swaps the axes of a matrix |
| `LoraShapes.PermuteAccepts` | convert_lora_to_gguf.py:169-180 | of the orders the dense tensor accepts, the pair accepts exactly those that keep the last axis of a shared A, and all orders of a matrix |
| `LoraShapes.PermuteBeyond` | convert_lora_to_gguf.py:169-175 | a pair of three axes takes 4, 3, 2 for 1, 0, 2, which the dense tensor refuses |
| `LoraShapes.SwapCommutes` | convert_lora_to_gguf.py:169-186 | the pair of transposed factors in swapped places stands for the transposed matrix |
| `LoraParts.SelectCommutes` | convert_lora_to_gguf.py:191-207 | selecting positions along one axis, as each part of a split does, is selecting them in the dense tensor |
| `LoraSplit.SplitCommutes` | convert_lora_to_gguf.py:191-207 | wherever the dense tensor can be split, by a size or a list, along an axis counted from either end, so can the pair, into the pairs of the blocks; and nowhere else, but for axes counted from the end twice |
| `LoraSplit.TwiceBatch` | convert_lora_to_gguf.py:191-207 | a batch axis counted twice is split as if it had been named rightly |
| `LoraSplit.TwiceRowsOfOne` | convert_lora_to_gguf.py:191-207 | so are the rows of a pair of rank 1 |
| `LoraSplit.TwiceRows` | convert_lora_to_gguf.py:202-207 | with another rank the rows counted twice give those parts that meet a part of the rank axis, if and only if each of these is whole, and fail otherwise |
| `LoraSplit.TwiceRowsOneSize` | convert_lora_to_gguf.py:202-207 | with one size and a rank above 1 the split fails for sizes below the rank and gives the first part of the rows alone for all others |
| `LoraSplit.TwiceColumns` | convert_lora_to_gguf.py:202-207 | the last axis counted twice gives those parts of the columns that meet a part of B's rank axis, if and only if each of these is whole, and fails otherwise |
| `LoraSplit.TwiceOneColumn` | convert_lora_to_gguf.py:202-205 | with a single column it gives the pair itself, or fails |
| `LoraSplit.TwiceFirst` | convert_lora_to_gguf.py:191-207 | axis -6 of three splits the first axis, where the dense tensor has no such axis |
| `LoraSplit.RowLost` | convert_lora_to_gguf.py:202-207 | three rows split in twos along axis -5 of three, with a rank of 2, lose the third row |
| `LoraGetItem.TupleExact` | convert_lora_to_gguf.py:78-113 | a tuple of integers and slices that ends in slices is accepted exactly when the dense tensor accepts it; the result is a pair if and only if every slice of a batch axis on which A is not shared keeps the whole axis, and then stands for the indexed dense tensor |
| `LoraGetItem.SharedTupleCommutes` | convert_lora_to_gguf.py:78-113 | with a shared A every such tuple commutes, integers reduced modulo A's axes included |
| `LoraGetItem.IntExact` | convert_lora_to_gguf.py:68-72 | a bare integer is accepted if and only if the dense tensor accepts it and A has B's length or the integer is 0 or -1; then it commutes |
| `LoraGetItem.SliceExact` | convert_lora_to_gguf.py:73-75 | a bare slice of more than two axes gives a pair if and only if A has B's length, or its one entry is kept, or nothing is left; then it commutes |
| `LoraGetItem.MatrixSliceExact` | convert_lora_to_gguf.py:73-77 | a slice of a matrix always commutes |
| `LoraGetItem.SharedSliceLost` | convert_lora_to_gguf.py:73-75 | `l[1:3]` with one A for four entries gives no pair |
| `LoraGetItem.SharedIntRefused` | convert_lora_to_gguf.py:68-70 | `l[1]` of the same pair fails |
| `LoraEllipsis.DotsRead` | convert_lora_to_gguf.py:80-97 | a tuple with an ellipsis in front of other entries is read as one with that many whole axes as there are other entries, and fails where those are more than half of the axes |
| `LoraEllipsis.DotsExact` | convert_lora_to_gguf.py:82-97 | the entries read are those meant if and only if half of the axes are named or all entries behind the ellipsis are whole axes |
| `LoraEllipsis.DotsCommute` | convert_lora_to_gguf.py:80-113 | under that condition, with a shared A, indexing commutes with the dense meaning |
| `LoraEllipsis.DotsAtEnd` | convert_lora_to_gguf.py:79-81 | an ellipsis at the end changes nothing, and alone is refused |
| `LoraEllipsis.DotsTakeRows` | convert_lora_to_gguf.py:82-97 | `l[..., 0:1]` of three axes is read as `l[:, 0:1]` |
| `LoraRuns.RunCommutes` | convert_lora_to_gguf.py:59-207 | any run of reshapes, permutations, transposes and indexings by integers, slices and tuples that the pair supports gives the dense result of the same run |
| `LoraElements.PermuteReads` | convert_lora_to_gguf.py:169-180 | an element of a permuted tensor is the one whose position on each named axis is the given one |
| `LoraElements.TransposeExact` | convert_lora_to_gguf.py:182-186 | transposing exchanges two axes of the shape and of every index |
| `LoraElements.TransposeAccepts` | convert_lora_to_gguf.py:182-186 | any two axes, counted from either end, can be exchanged, and no others |
| `LoraElements.SliceKeeps` | convert_lora_to_gguf.py:59-113 | a slice keeps, in order, every step-th position from its first bound on that lies before its second |
| `LoraElements.EntriesAccepted` | convert_lora_to_gguf.py:59-113 | a slice is refused for a step that is not positive, and an integer outside the axis, only |
| `LoraElements.SourceExact` | convert_lora_to_gguf.py:59-113 | an element of an indexed tensor comes from the picked position on each dropped axis and from the kept position that its index names on each other |
| `LoraElements.OneSizeParts` | convert_lora_to_gguf.py:191-207 | parts of one size start at its multiples, as many as are needed and no more |
| `LoraElements.SizedParts` | convert_lora_to_gguf.py:191-207 | parts of given sizes have those sizes, one after the other, and make up the axis |
| `LoraElements.CutsAccepted` | convert_lora_to_gguf.py:191-207 | sizes are accepted if and only if they make up the axis, one size if and only if it is positive or nothing is to be split |
| `LoraElements.ExpandKeeps` | convert_lora_to_gguf.py:137-161 | a shape that is filled in keeps all entries but -1 |
| `LoraElements.ExpandFits` | convert_lora_to_gguf.py:137-161 | a single -1 is filled in so that the sizes agree |
| `LoraElements.ExpandAccepts` | convert_lora_to_gguf.py:137-161 | a shape with -1 is filled in if and only if its other entries are not negative and their product divides the size |
| `LoraCat.CatUndoesSplit` | convert_lora_to_gguf.py:191-250 | splitting a matrix along its rows, by a size or a list, and concatenating the parts gives back the same pair |
| `LoraCat.CatCommutes` | convert_lora_to_gguf.py:234-250 | concatenating pairs with a common A is concatenating their dense matrices |
| `LoraCat.CatMatricesExact` | convert_lora_to_gguf.py:244-250 | pairs of two axes are concatenated if and only if all have the same A, and then stand for the concatenated dense matrices |
| `LoraStack.StackReturnsMembers` | convert_lora_to_gguf.py:225-233 | indexing a stack of pairs, from either end, gives back each member |
| `LoraStack.CatProper` | convert_lora_to_gguf.py:239-243 | concatenated factors of more than two axes are a pair if and only if the A's have one entry together or as many as the B's |
| `LoraStack.CatPairsCommute` | convert_lora_to_gguf.py:239-243 | where every A is as long as its B, concatenating the factors is concatenating the dense tensors |
| `LoraStack.CatExact` | convert_lora_to_gguf.py:239-243 | concatenating pairs that have entries gives a pair if and only if there is one of them or no A is shared by several entries, and it then stands for the concatenated dense tensors |
| `LoraStack.SharedCatRefused` | convert_lora_to_gguf.py:239-243 | the same pair twice, its A shared by two entries, gives no pair |
| `Checkpoints.StepSafe` | common/common.cpp:2060-2129 | every operation on live checkpoints keeps each live handle in exactly one slot, no dead handle in any, and the storage library without misuse |
| `Checkpoints.RunSafe` | common/common.cpp:2060-2218 | the same after any program over any number of checkpoints, self-assignment included, so that nothing is freed twice or used after it was freed |
| `Checkpoints.NothingLeaks` | common/common.cpp:2060-2063 | a program that destroys all its checkpoints leaves no live handle |
| `Checkpoints.NothingShared` | common/common.cpp:2065-2129 | two checkpoints never hold the same handle |
| `CheckpointContents.RunTells` | common/common.cpp:2060-2274 | after any program each live checkpoint has exactly the numbers, target data, draft data and saved states that the last updates and clears along its chain of copies and moves gave it |
| `CheckpointContents.StorageMatches` | common/common.cpp:2060-2274 | storage of a side, where there is some, has that side's state |
| `Checkpoints.SelfAssignmentGuard` | common/common.cpp:2075-2078 | without the test for self-assignment a copy-assignment would clone freed storage if and only if the checkpoint owns storage |
| `Checkpoints.SourceLeftEmpty` | common/common.cpp:2095-2129 | a moved-from checkpoint that kept its handles would have them freed twice if and only if it owned storage; left without them it frees nothing |
| `CheckpointObjects.Library.Free` | common/common.cpp:2060-2063 | freeing null does nothing; freeing a dead handle is recorded as misuse |
| `CheckpointObjects.Library.Init` | common/common.cpp:2173-2177 | a handle never given out before becomes live |
| `CheckpointObjects.Library.Clone` | common/common.cpp:2065-2073 | cloning null gives null; cloning a live handle gives a new one |
| `CheckpointObjects.Library.Write` | common/common.cpp:2173-2190 | saving under a handle changes what is saved there only |
| `CheckpointObjects.Library.Read` | common/common.cpp:2065-2073 | what was saved last under a handle is what cloning it copies |
| `CheckpointObjects.PromptCheckpoint.constructor` | common/common.h:1086-1098 | a new checkpoint is empty |
| `CheckpointObjects.PromptCheckpoint.Copy` | common/common.cpp:2065-2073 | the copy has the source's data and storage of its own, and the source is unchanged |
| `CheckpointObjects.PromptCheckpoint.Move` | common/common.cpp:2095-2105 | the new checkpoint takes over data and storage, and the source is left without |
| `CheckpointObjects.PromptCheckpoint.CopyAssign` | common/common.cpp:2075-2093 | the old storage is freed and the source's cloned; assignment to itself changes nothing |
| `CheckpointObjects.PromptCheckpoint.MoveAssign` | common/common.cpp:2107-2129 | the old storage is freed and the source's taken over; assignment to itself changes nothing |
| `CheckpointObjects.PromptCheckpoint.Clear` | common/common.cpp:2142-2155 | the storage is freed and the checkpoint is as new |
| `CheckpointObjects.PromptCheckpoint.UpdatePos` | common/common.cpp:2157-2164 | only the token count and the positions change |
| `CheckpointObjects.PromptCheckpoint.UpdateTgt` | common/common.cpp:2166-2191 | state kept on the device gets storage on first use; other state gives storage back; a null context changes nothing |
| `CheckpointObjects.PromptCheckpoint.UpdateDft` | common/common.cpp:2193-2218 | the same for the draft state |
| `CheckpointObjects.PromptCheckpoint.ClearTgt` | common/common.cpp:2264-2268 | the target data and storage go, the rest stays |
| `CheckpointObjects.PromptCheckpoint.ClearDft` | common/common.cpp:2270-2274 | the draft data and storage go, the rest stays |
| `CheckpointObjects.PromptCheckpoint.Destroy` | common/common.cpp:2060-2063 | both storages are freed |
| `CheckpointObjects.Perform` | common/common.cpp:2060-2274 | an operation on distinct checkpoint objects that own their storage safely makes the model's step, changes no other object, and leaves each live handle in exactly one slot |
| `CheckpointObjects.PerformAll` | common/common.cpp:2060-2274 | any program over objects and one library is the model's run, and the library is never misused |
| `Segments.SegmentizeMarkers` | common/chat-auto-parser-helpers.cpp:269-299 | the pass with one border computes the specified segments |
| `Segments.SegmentsLossless` | common/chat-auto-parser-helpers.cpp:269-299 | the segments' values put together are the text |
| `Segments.SegmentsProper` | common/chat-auto-parser-helpers.cpp:269-299 | every segment is a marker that runs from an opener to its first matching closer, or text; only the last text may hold an opener |
| `SegmentLaws.MarkerFound` | common/chat-auto-parser-helpers.cpp:269-299 | a marker between texts is found between them, as it stands |
| `SegmentLaws.TextFound` | common/chat-auto-parser-helpers.cpp:269-299 | text without an opener is one segment, and so is all from an opener that is never closed |
| `DiffSplit.MatchEnds` | common/chat-auto-parser-helpers.cpp:102-139 | the loop with four iterators and two flags computes the specified two-ended matching |
| `DiffSplit.TrimEnds` | common/chat-auto-parser-helpers.cpp:168-189 | the shared ends of the open texts move into prefix and suffix as far as both ends are text |
| `DiffSplit.Calculate` | common/chat-auto-parser-helpers.cpp:87-207 | the whole computation is the specified one |
| `DiffSplit.CommonPrefixLen` | common/chat-auto-parser-helpers.cpp:69-76 | the loop returns the common prefix length |
| `DiffSplit.CommonPrefixLongest` | common/chat-auto-parser-helpers.cpp:69-76 | the common prefix cannot be longer |
| `DiffSplit.CommonSuffixLen` | common/chat-auto-parser-helpers.cpp:78-85 | the loop returns the common suffix length |
| `DiffSplit.CommonSuffixLongest` | common/chat-auto-parser-helpers.cpp:78-85 | the common suffix cannot be longer |
| `DiffSplit.MatchCovers` | common/chat-auto-parser-helpers.cpp:114-139 | the loop conserves both texts: prefix, open segments and suffix always make them up |
| `SegmentLaws.MatchEnded` | common/chat-auto-parser-helpers.cpp:114-139 | the loop takes equal segments from the front and stops only where both ends differ or a side is down to one segment |
| `SegmentLaws.TrimLongest` | common/chat-auto-parser-helpers.cpp:168-189 | exactly what the open texts share is trimmed, at the back first, and only where both ends are text |
| `SegmentLaws.PlainDifference` | common/chat-auto-parser-helpers.cpp:87-207 | texts without markers are split where they differ first and last, and a left text that begins the right one is all prefix |
| `DiffSplitExact.SplitExact` | common/chat-auto-parser-helpers.cpp:87-207 | prefix, difference and suffix rebuild both texts if and only if no segment is counted twice |
| `DiffSplitExact.UnmarkedRebuilds` | common/chat-auto-parser-helpers.cpp:87-207 | when the loop flags neither side as consumed, both texts are rebuilt |
| `DiffSplitExact.EqualRebuilds` | common/chat-auto-parser-helpers.cpp:191-195 | equal texts are rebuilt |
| `DiffSplitExact.RepeatedMarkerLost` | common/chat-auto-parser-helpers.cpp:111-151 | a repeated last marker is counted twice and the texts are not rebuilt |
| `Base64.Encode` | common/base64.hpp:80-144 | the loop over three bytes writes, in the chosen alphabet and with padding, the base-64 digits of the number that the bytes write in base 256 |
| `Base64.WriteGroups` | common/base64.hpp:80-144 | the same for any alphabet table |
| `Base64.Decode` | common/base64.hpp:200-244 | decoding out of place gives the leading bytes of the number the characters write, or throws on a character outside the alphabet or after padding |
| `Base64.DecodeInPlace` | common/base64.hpp:294-313 | decoding into the buffer that is read gives the same bytes and outcome as out of place and leaves the rest of the buffer; on a throw the bytes before the fault are written |
| `Base64.OverwriteValues` | common/base64.hpp:200-232 | no write reaches a position not yet read |
| `Base64.PackedExact` | common/base64.hpp:218-231 | byte by byte the decoder writes the leading bytes of the sextets' number |
| `Base64.PackedLength` | common/base64.hpp:218-231 | after i characters exactly 3i/4 bytes, rounded down, are written |
| `Base64Groups.EncodedByGroups` | common/base64.hpp:80-144 | what is encoded is written in groups of 24 bits, six at a time in the two alphabets, the last group filled with zeros and padded, as in section 4 of RFC 4648 |
| `Base64Groups.DecodedWhere` | common/base64.hpp:200-244 | behind the characters of its alphabet, loose decoding accepts the end or a pad and then anything, moderate decoding nothing but pads; both give the bytes that the characters hold |
| `Base64Laws.RoundTrip` | common/base64.hpp:80-244 | decoding inverts encoding for every byte string, in the alphabet of the text or with detection, under both behaviours |
| `Base64Laws.EncodedSize` | common/base64.hpp:338-341 | the encoding's length is the required size |
| `Base64Laws.DecodedSize` | common/base64.hpp:324-327 | the decoded length is 3n/4 for n characters read, and at most the reserved size |
| `Base64Laws.ReservedSize` | common/base64.hpp:324-327 | the reserved size is three bytes for each group of four characters that was begun |
| `Base64Laws.AutoExact` | common/base64.hpp:344-389 | detection accepts a text if and only if one of the two fixed alphabets does, and decodes it to the same bytes |
| `Base64Laws.ReencodeExact` | common/base64.hpp:80-244 | encoding inverts decoding if and only if the text is padded and its spare bits are zero |
| `Glob.GlobClassMatch` | common/common.cpp:696-734 | a character matches a class if and only if one of its items covers it, or none where it is negated; a leading `]` or `-` stands for itself |
| `Glob.CoveredFrom` | common/common.cpp:714-731 | the loop over the items finds a covering one if and only if there is one |
| `Glob.GlobMatch` | common/common.cpp:737-781 | the matcher terminates and is true if and only if the string splits into pieces that the pattern's tokens accept |
| `Glob.MatchPathPart` | common/common.cpp:747-753 | the scanning loop for `*` |
| `Glob.MatchClass` | common/common.cpp:757-776 | a class takes one character; an unterminated bracket is a literal |
| `Glob.ScanClass` | common/common.cpp:758-765 | where a class ends |
| `Glob.GlobMatchStrings` | common/common.cpp:783-785 | strings count up to their first NUL |
| `Glob.SplitsExactly` | common/common.cpp:737-781 | splitting is the existence of a list of pieces, one accepted by each token, that concatenate to the string |
| `Glob.PlainMatches` | common/common.cpp:777-780 | a pattern without special characters matches itself and nothing else |
| `Glob.AnyPrefix` | common/common.cpp:741-746 | `**` in front matches with any text before the match |
| `GlobLaws.WildcardMatches` | common/common.cpp:737-781 | between plain texts `**` stands for any text, `*` for text without a slash, and `?` for one character but a slash |
| `GlobLaws.RangeMatches` | common/common.cpp:696-776 | between plain texts `[a-z]` stands for one character from a to z |
| `GlobLaws.LeadingMatches` | common/common.cpp:705-711 | a `]` or `-` that leads a class stands for itself and begins no range |
| `Glob.EmptyNegation` | common/common.cpp:696-734 | `[!]` matches any one character |
| `Escapes.ProcessEscapes` | common/common.cpp:613-648 | unescaping in place leaves the pure left-to-right unescape of the original at the front of the buffer and the rest as it was |
| `Escapes.ProcessOne` | common/common.cpp:617-645 | one escape, also the two-write fall-through of `\x`, overwrites nothing that is still to be read |
| `Escapes.NeverLonger` | common/common.cpp:613-648 | the result is never longer, and as long only where nothing changed |
| `Escapes.UnescapeSpelled` | common/common.cpp:613-648 | however each character is written, raw, by name or in two hexadecimal digits, unescaping gives the string back |
| `Escapes.UnescapeDoubled` | common/common.cpp:613-648 | unescaping undoes the doubling of backslashes for every string |
| `Escapes.NameMeans` | common/common.cpp:619-625 | the letters n, r and t, the quotes and the backslash stand for what they name |
| `Escapes.CodeMeans` | common/common.cpp:626-637 | two hexadecimal digits of either case are a character's code |
| `Escapes.SignedCode` | common/common.cpp:626-637 | a digit behind a space or a sign is read as a signed number |
| `Escapes.CodeKept` | common/common.cpp:626-641 | any other `\x` stays as it is |
| `Escapes.OthersKept` | common/common.cpp:618-644 | a backslash in front of any other letter stays, and so does one at the end |
| `Csv.ParseCsvRow` | common/arg.cpp:998-1040 | the loop computes what the machine makes of the row |
| `Csv.ParseRow` | common/arg.cpp:994-1040 | parsing returns every non-empty list of fields from a row in which each field is quoted with doubled quotes, or raw when it has no comma and no leading quote |
| `Csv.ScanSize` | common/arg.cpp:998-1040 | no character and no field is invented |
| `Csv.BareExactly` | common/arg.cpp:998-1040 | a raw field is read back alone if and only if it has no comma and no leading quote |
| `GgmlFile.LoadVocab` | convert_llama_ggml_to_gguf.py:84-98 | the loop reads the items of the specification, with scores where the format has them |
| `GgmlFile.ReadsWhole` | convert_llama_ggml_to_gguf.py:112-120 | numbers are read exactly where the slice of all of them is long enough, before the start of the file too, where slices count from its end |
| `GgmlFile.LoadTensors` | convert_llama_ggml_to_gguf.py:189-194 | the loop reads on from wherever a record's size leads, to the end of the file, a failure or no end, and the map gives each name's last tensor |
| `GgmlFile.Load` | convert_llama_ggml_to_gguf.py:180-200 | header, hyperparameters, vocabulary, tensors and the feed-forward size are read in turn, and every error is reported |
| `GgmlImages.LoadImage` | convert_llama_ggml_to_gguf.py:145-200 | loading the image of any file gives back its header, hyperparameters, items and tensor descriptors, and each tensor's data stands where its descriptor says |
| `GgmlFormats.LoadsExactly` | convert_llama_ggml_to_gguf.py:145-200 | a file that is sound but for magic, version and type is loaded if and only if its type is listed for its magic and version, and refused otherwise |
| `GgmlFormats.FeedForwardIs` | convert_llama_ggml_to_gguf.py:52-57 | the feed-forward size is the second dimension of the last tensor of its name |
| `GgmlFormats.HeaderExact` | convert_llama_ggml_to_gguf.py:145-165 | for any bytes, a header is found if and only if they begin with one as it is written, magic and known version |
| `GgmlFormats.OthersRefused` | convert_llama_ggml_to_gguf.py:145-165 | all other files are refused |
| `GgmlFormats.SliceIs` | convert_llama_ggml_to_gguf.py:84-120 | a slice is the bytes that do not come before its first bound but before its second, each bound counted from the end where it is negative |
| `GgmlFormats.RecordExact` | convert_llama_ggml_to_gguf.py:110-131 | a written tensor record is read if and only if it has at most four dimensions, a name shorter than 4096 bytes, and a known type |
| `GgmlFormats.ItemExact` | convert_llama_ggml_to_gguf.py:84-98 | a written item is read if and only if its text is shorter than 4096 bytes |
| `GgmlImages.ReadRecord` | convert_llama_ggml_to_gguf.py:110-131 | a tensor record at any offset is read back |
| `GgmlImages.ReadItems` | convert_llama_ggml_to_gguf.py:84-98 | a list of items at any offset is read back |
| `GgmlLaws.RegionsApart` | convert_llama_ggml_to_gguf.py:110-194 | a completed load ends at or past the end of the file, in GGJT files each tensor starts at a multiple of 32, and the data regions are in order and apart if and only if no computed size is negative |
| `GgmlLaws.FittingRegions` | convert_llama_ggml_to_gguf.py:110-194 | where the sizes fit, each region has its true size and the regions are apart |
| `GgmlLaws.ByteCountExact` | convert_llama_ggml_to_gguf.py:126-127 | the size computed in 64-bit arithmetic is the true one if and only if the product fits |
| `GgmlLaws.ForeverExactly` | convert_llama_ggml_to_gguf.py:190-194 | the loop over the tensors never ends if and only if it reaches an offset twice; otherwise the outcome is that of any number of rounds in which it ends |
| `GgmlLaws.GoesBackExactly` | convert_llama_ggml_to_gguf.py:126-131 | a run goes back if and only if a record it meets has a size of at most minus its own length, or data that end past the largest offset |
| `GgmlLaws.EndlessSize` | convert_llama_ggml_to_gguf.py:126-131 | a loop that never ends meets a record whose size is at most minus its own length |
| `GgmlLaws.FittingEnds` | convert_llama_ggml_to_gguf.py:126-194 | a load that never ends meets a record whose true size does not fit |
| `GgmlImages.EndlessExactly` | convert_llama_ggml_to_gguf.py:180-194 | loading a file never ends if and only if its header, hyperparameters and vocabulary are read and the loop then reaches an offset twice |
| `GgmlImages.LoadsForever` | convert_llama_ggml_to_gguf.py:110-194 | a whole file, with header, hyperparameters, no vocabulary and one record whose size wraps to minus its length, on which loading never ends |

## Left out

- The PEG engine, the parser builders and `tag_based_peg_mapper`: models start from node sequences and trees.
- The Gemma 4 mapper around the printer (common/chat-peg-parser.cpp:1021-1058): it only collects printed trees.
- Text is a sequence of code points in the chat models; the JSON library's exception on invalid UTF-8 is not modelled.
- Message fields that the mapper does not write (role, content parts, tool name) and the `filter_tool_calls` argument of `update_chat_msg`.
- `ChatMapper.Mapper.Map`: its precondition excludes a node that uses a call already discarded, where the source dereferences a null or stale pointer; `ChatGrowth.NeverDangling` and `ChatReplies.StreamableReply` show that streamable replies do not get there.
- `validate_utf8`, the token vocabulary, token budgets and time limits in `process_token`, and its indentation check (tools/server/server-context.cpp:2646-2712): a token carries whether it leaves complete text and whether it ends generation, and a run may end anywhere.
- `StopWords.RunExact`: asks that no stop word is empty, which the request parser sees to (tools/server/server-task.cpp:597-604).
- Float rounding in LoRA tensors: elements are exact reals.
- Factored tensors that the code refuses or marks as unsure: an integer row or column entry of a tuple, tensors as indices, and permutations that need both factors of more than two axes.
- `LoraEllipsis.DotsRead`: a tuple with one ellipsis; the code expands several in the same way, where tensors refuse them.
- `LoraReshape.ReshapeCommutes`: for rank 0 the pair can accept a shape of another size, since B is then empty; the statement says so.
- `LoraRuns.RunCommutes`: asks for a rank above 0, for the same reason, and that reshapes and permutations are written as tensors accept them.
- `load_tgt`, `load_dft` and `size` of checkpoints, and how much of a state a storage handle keeps: what was saved under it last is the whole state; the abort on a size mismatch in `update_tgt` and `update_dft`; moved-from vectors are modelled as empty.
- Glob character ranges compare characters by code; where `char` is signed, bytes from 128 on compare differently.
- `size_t` overflow in base64 sizes and in all positions.
- `strtol` is modelled in the C locale on the two characters given to it.
- `GgmlFile.Load`: for a load that never ends the model returns `Endless`. The table of block sizes and the name of the feed-forward tensor are parameters.
- `GgmlLaws.RegionsApart`: for files shorter than 2^60 bytes, as are `GgmlLaws.GoesBackExactly`, `GgmlLaws.EndlessSize` and `GgmlLaws.FittingEnds`.
- `GgmlImages.LoadImage`: for images shorter than 2^63 bytes, so that no offset wraps.
- Writing GGUF files, tensor conversion and vocabulary overrides in convert_llama_ggml_to_gguf.py.
- Template analysis (common/chat-diff-analyzer.cpp, common/chat-auto-parser-generator.cpp), option parsing, model loading, sampling, back ends and tools: configuration, heuristics or foreign calls.
