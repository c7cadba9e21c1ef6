# Models of llama.cpp's text, streaming and conversion code

This project models six pieces of llama.cpp in Dafny and proves what the rest of the program relies on.
`dafny verify dfyconfig.toml` checks all of it.

| piece | modules | main results |
|---|---|---|
| LoRA factor algebra | `Tensors`, `IndexLaws`, `LoraTensor`, `LoraSelect`, `LoraReshape`, `LoraPermute`, `LoraJoin`, `LoraConcat`, `LoraChain`, `LoraIndex`, `LoraHeads` | any accepted chain of slices, reshapes, permutations, concatenations and stackings of the factors A and B stands for the same chain on the product B·A; of each operation that can leave wrong factors, exactly when it does not |
| streaming chat parser | `Text`, `PartialStop`, `ChatParser`, `TaggedText`, `ReasoningStream`, `ChatDiff`, `ServerSlot`, `ServerStream`, `JsonCleaner`, `JsonPaths`, `JsonHealing`, `JsonKept`, `JsonRepeats` | a client is in step over a whole run exactly when each message grew out of the one before; which texts, cut where, and which pairs of tags make them grow; the healing of truncated JSON leaves no trace, nothing before it is lost, and exactly when the path that the cleaner keeps goes wrong |
| checkpoint conversion | `BytePair`, `HeadLayout`, `QkvLayout`, `Experts` | merging is staged and stops exactly where it should; row reorderings are bijections with stated targets; for every order of arrival each block of experts is merged once, on its last arrival |
| token and string algorithms | `CommonRun`, `Escapes`, `SplitJoin` | the two-row table finds the longest common run; decoding escapes in place equals decoding left to right and undoes doubling; replace, split and join agree |
| Base64 (sections 4 and 5 of RFC 4648) | `Base64`, `Base64Laws` | encoding and decoding both spell the same bits; round trips; in-place decoding; detection of the alphabet |
| line editor (section 3 of RFC 3629) | `LineEditor`, `LineEditorLaws`, `Utf8Stream` | after any keys the buffer is the encoding of the surviving characters, in the shortest form, with one width each |

How the model is built:

- Code that changes things step by step is a method with a loop, over an array where the source works in place and
  over the fields of a class where it updates an object. Its `ensures` ties it to a function or to an outright
  property; the laws are lemmas about those functions.
- Exceptions, failed assertions and `NotImplementedError` are `None` or `Err`.
- Bytes and code points are bit vectors in `Base64`, `BytePair` and `LineEditor`; elsewhere a string is a sequence of
  characters. Tensor elements are arbitrary, or reals where they are multiplied.

What the code does that its documentation, or a first reading, does not say:

- `common_lcs` is documented as a longest common subsequence. The reset to 0 makes it the longest contiguous run
  (`CommonRun.CommonLcs`).
- Thoughts can be taken back while streaming when the start tag ends with a beginning of the end tag. This is
  characterised exactly (`ReasoningStream.ReasoningGrowsIff`); the tags of `common/chat.cpp` are safe
  (`ReasoningStream.TagsInUseAreSeparated`).
- A piece of text that ends inside the start tag is sent as content and is not taken back
  (`ServerStream.CutStartTagIsNotTakenBack`). A piece is safe exactly when it does not end there
  (`ServerStream.PieceIsSafeIff`, `ServerStream.RunIsSafeIff`).
- The final check for unprocessed experts does not notice a block of which no tensor arrived
  (`Experts.MissingBlockGoesUnnoticed`); `Experts.FinalCheckFailsIff` says exactly what it notices.
- The JSON parser stores a repeated key in its first place. `{"a": 0, "c": 1, "a": {"b": "` is healed to a value with
  the marker before "c", and the cleaner then looks "c" up at the wrong path (`JsonRepeats.KeyWrittenTwiceIsMisread`).
  `JsonPaths.PathIsTrueIff` and `JsonRepeats.TextIsCleanedRightIff` say exactly when it does.
- A complete string at the content path of the whole value is emptied and called partial; nothing else that is complete
  is (`JsonHealing.CompleteIsPartialIff`).
- Indexing, reshaping and concatenating factors can be accepted and wrong. Slicing a leading dimension that A does not
  share (`LoraSelect.TupleCommutesIff`, `LoraSelect.FirstCommutesIff`) or concatenating tensors whose A is shared
  (`LoraConcat.CatCommutesIff`) leaves factors that cannot be multiplied. An index that picks a row and a column, as
  `x[:, 0, 0]`, is accepted where a leading dimension of A has the size of the rank, and the factors stand for another
  tensor (`LoraSelect.RowAndColumnAccepted`). Factors of rank 0 are reshaped to any number of elements
  (`LoraReshape.RankZeroReshapesToAnySize`), and a tensor without elements can shift the A of the next
  (`LoraConcat.EmptySharedShifts`).
- An ellipsis that is not at the end of an index tuple stands for one slice less than the tuple has entries, not for
  the dimensions that the others leave. `LoraIndex.ExpansionIff` says when the two agree; `x[..., 0:1]` of three
  dimensions takes rows for columns (`LoraIndex.EllipsisTakesRows`).
- An integer above 0 is refused as an index alone where A has one position for all (`LoraIndex.OneAcceptedIff`), though
  not in a tuple.
- `permute` counts a dimension past the last from the end, where torch refuses it (`LoraPermute.PermuteCommutesIff`).
- The converter's assertion that a token of several bytes falls into two parts holds exactly when merging one rank
  further makes the token whole again (`BytePair.TwoPartsIff`).
- The line editor records a width for a code above 0x10FFFF although it writes nothing, so a backspace deletes the
  character before it (`LineEditorLaws.BackspaceOutOfStep`); `LineEditorLaws.BackspaceInStepIff` is the exact condition.

## Model

| member | source | states |
|---|---|---|
| Tensors.OffsetOfConcat | llama.cpp/convert_lora_to_gguf.py:148-153 | the row-major number of an index in joined shapes, which every reshape below rests on |
| Tensors.JoinAt | llama.cpp/convert_lora_to_gguf.py:205-218 | an element of two concatenated tensors is an element of the first, or of the second at the shifted index |
| Tensors.StackAt | llama.cpp/convert_hf_to_gguf.py:1979 | stacking puts tensor `x` at index `x` of a new first dimension |
| Tensors.PermuteMoves | llama.cpp/convert_lora_to_gguf.py:161-172 | in a permuted tensor an element's position along dimension `i` is its old one along `dims[i]` |
| IndexLaws.AcceptedIff | llama.cpp/convert_lora_to_gguf.py:57-111 | an index is accepted exactly when it has no more entries than dimensions, its integers lie in their dimensions, counted from the end when negative, and its steps are above 0 |
| IndexLaws.ItemAt | llama.cpp/convert_lora_to_gguf.py:57-111 | what any index takes, in arithmetic alone: bounds that are missing, negative or out of range, steps, and integers that take a dimension away |
| IndexLaws.SliceOfFirst | llama.cpp/convert_hf_to_gguf.py:1519-1524 | a slice with bounds holds every `step`-th part from the lower bound up to but not including the upper one, in order |
| LoraTensor.DenseAt | llama.cpp/convert_lora_to_gguf.py:39-52 | what the factors stand for: each element is a row of B times a column of A, leading dimensions of A of size 1 being shared |
| LoraTensor.SplitIndex | llama.cpp/convert_lora_to_gguf.py:120-123 | the shape is B's leading dimensions and rows with A's columns: every index is one of B's lead, a row and a column |
| LoraTensor.DotAdds | llama.cpp/convert_lora_to_gguf.py:120-123 | the product of a row and a column adds up over its arguments |
| LoraTensor.DotOfUnit | llama.cpp/convert_lora_to_gguf.py:120-123 | and of a column with one entry it is that entry times the row's |
| LoraSelect.BroadcastSelected | llama.cpp/convert_lora_to_gguf.py:98-110 | the two index tuples derived for A and B point at the same shared position, dimension by dimension |
| LoraSelect.SelectCommutes | llama.cpp/convert_lora_to_gguf.py:98-111 | indexing the factors and multiplying is multiplying and indexing, for every pair of index tuples that go together |
| LoraSelect.TupleCommutesIff | llama.cpp/convert_lora_to_gguf.py:76-111 | of all accepted index tuples, those whose factors stand for the indexed product are exactly those that keep rows and columns and slice leading dimensions only where A shares them or loses nothing |
| LoraSelect.MatrixTupleCommutesIff | llama.cpp/convert_lora_to_gguf.py:76-111 | if a tuple keeps rows and columns, the factors can be multiplied under that condition only, and are never multiplied to a wrong product |
| LoraSelect.FollowedKeepsMatrix | llama.cpp/convert_lora_to_gguf.py:98-111 | an index that picks a row and a column is never followed, by its number of dimensions |
| LoraSelect.RowAndColumnAccepted | llama.cpp/convert_lora_to_gguf.py:98-111 | such an index is accepted on factors whose dimensions are all 1 |
| LoraSelect.FirstCommutesIff | llama.cpp/convert_lora_to_gguf.py:66-73 | the same for one slice or integer on a tensor with leading dimensions, with its own exact condition |
| LoraSelect.RowsCommute | llama.cpp/convert_lora_to_gguf.py:74-75 | without leading dimensions one slice takes rows of B, unconditionally |
| LoraReshape.SameFlatProduct | llama.cpp/convert_lora_to_gguf.py:148-153 | with A one shared matrix, the product in row-major order depends on the factors' elements only |
| LoraReshape.OpenIsFilled | llama.cpp/convert_lora_to_gguf.py:138-143 | a dimension of -1 is filled in so that the number of elements is kept, or the shape is refused |
| LoraReshape.ReshapeAcceptedIff | llama.cpp/convert_lora_to_gguf.py:129-159 | factors with a rank above 0 and one A are reshaped exactly to shapes of two dimensions and more that keep the columns and the number of rows |
| LoraReshape.ReshapeCommutesIff | llama.cpp/convert_lora_to_gguf.py:129-159 | every accepted reshape leaves factors that can be multiplied, and their product is the reshaped product exactly for a rank above 0 or as many elements, with at most one -1 |
| LoraReshape.RankZeroReshapesToAnySize | llama.cpp/convert_lora_to_gguf.py:138-153 | factors of rank 0 accept a reshape to a different number of elements |
| LoraPermute.KeptLastCommutes | llama.cpp/convert_lora_to_gguf.py:164-167 | permuting B's dimensions with the last kept is permuting the product when A's leading dimensions are 1 |
| LoraPermute.SwapCommutes | llama.cpp/convert_lora_to_gguf.py:168-169 | swapping and transposing the two factors transposes the product |
| LoraPermute.PermuteCommutesIff | llama.cpp/convert_lora_to_gguf.py:161-172 | every accepted permutation leaves factors whose product is the product permuted by the dimensions counted from the end, and by the dimensions as given exactly if none lies past the last |
| LoraPermute.TransposeCommutes | llama.cpp/convert_lora_to_gguf.py:174-181 | the same for every accepted transpose and swapaxes |
| LoraPermute.TorchAcceptsIff | llama.cpp/convert_lora_to_gguf.py:161-172 | the dimensions that torch takes for a permutation: those that stand for all positions, counted from either end |
| LoraPermute.PermuteAcceptedIff | llama.cpp/convert_lora_to_gguf.py:161-172 | a permutation is accepted exactly when the last dimension stays, A's leading dimensions being 1, or a matrix is transposed |
| LoraPermute.TransposedElement | llama.cpp/convert_lora_to_gguf.py:174-181 | a transpose exchanges two positions of every element, counted from either end |
| LoraConcat.CatCommutes | llama.cpp/convert_lora_to_gguf.py:205-220 | an accepted concatenation leaves factors whose product is the concatenated products: without leading dimensions always, with them when every A has B's own first dimension or the first dimensions of A add up to 1 |
| LoraConcat.ConcatAcceptedIff | llama.cpp/convert_lora_to_gguf.py:205-220 | a concatenation is refused only where torch refuses that of a factor, or matrices have different A |
| LoraConcat.StackAcceptedIff | llama.cpp/convert_lora_to_gguf.py:197-204 | a stack is refused only to tensors whose factors differ in shape |
| LoraConcat.CatCommutesIff | llama.cpp/convert_lora_to_gguf.py:205-213 | with leading dimensions, none of B's first ones being 0, the concatenated factors can be multiplied exactly when there is one tensor or every A has B's own first dimension, and their product is then the concatenated products |
| LoraConcat.CatWellFormedIff | llama.cpp/convert_lora_to_gguf.py:209-213 | with any first dimensions, they can be multiplied exactly when those of A add up to 1 or to those of B |
| LoraConcat.EmptySharedShifts | llama.cpp/convert_lora_to_gguf.py:209-213 | after a tensor without elements they can be multiplied, to a wrong product |
| LoraJoin.StackCommutes | llama.cpp/convert_lora_to_gguf.py:197-204 | every accepted stack leaves factors whose product is the stacked products, without a condition |
| LoraChain.ItemCommutes | llama.cpp/convert_lora_to_gguf.py:57-113 | all index forms together: one slice or integer, or a tuple; which elements they take is `LoraIndex.ItemTakes` |
| LoraChain.ChainCommutes | llama.cpp/convert_lora_to_gguf.py:39-222 | for any finite expression of accepted operations over any tensors, running it on the factors and multiplying equals running it on the products |
| LoraIndex.ItemTakes | llama.cpp/convert_lora_to_gguf.py:57-113 | the elements of the indexed product are those of the product that the index points at |
| LoraIndex.TupleAcceptedIff | llama.cpp/convert_lora_to_gguf.py:76-111 | a tuple that keeps rows and columns is accepted exactly when it has an entry and torch accepts it |
| LoraIndex.OneAcceptedIff | llama.cpp/convert_lora_to_gguf.py:66-73 | with leading dimensions one slice or integer is accepted exactly when both factors accept it |
| LoraIndex.RowOfSlice | llama.cpp/convert_lora_to_gguf.py:98-111 | rows `lo` to `hi` of a matrix, in a tuple: A is kept, and row `i` is the named row of B |
| LoraIndex.ExpansionIff | llama.cpp/convert_lora_to_gguf.py:78-93 | an ellipsis before the end stands for what torch takes it for exactly if the others take half of the dimensions or those after it take everything |
| LoraIndex.EllipsisCommutesIff | llama.cpp/convert_lora_to_gguf.py:78-111 | where it does, or is at the end, indexing the factors is indexing the product under the same condition as without it |
| LoraIndex.EllipsisTakesRows | llama.cpp/convert_lora_to_gguf.py:78-93 | a tuple where it does not, and the shapes that it gives |
| LoraHeads.PermuteHeadsOnFactors | llama.cpp/convert_hf_to_gguf.py:1924-1929 | the head reordering is accepted on the factors of any matrix whose rows divide into heads of two halves, and gives the reordered product |
| HeadLayout.SwapReshapedAt | llama.cpp/convert_hf_to_gguf.py:1927-1929 | where every element of the reshaped, swapped and flattened tensor comes from |
| HeadLayout.SwapReshapedBack | llama.cpp/convert_hf_to_gguf.py:1927-1929 | splitting the other way round is the inverse |
| HeadLayout.RowsPermuteWithinHeads | llama.cpp/convert_hf_to_gguf.py:1924-1929 | the reordering is a bijection on rows that keeps each row in its head and interleaves the head's halves |
| HeadLayout.PermuteHeadsAccepted | llama.cpp/convert_hf_to_gguf.py:1924-1929 | it is accepted exactly when every head, counted by keys and values where those are given, has two halves of whole rows |
| HeadLayout.PermutedHeadRow | llama.cpp/convert_hf_to_gguf.py:1924-1929 | with the number of heads of the keys and values where it is given, row `i` of the result is the row the bijection names, for all columns |
| QkvLayout.TargetsAreOrdered | llama.cpp/convert_hf_to_gguf.py:1664-1670 | the targets of all query rows come before those of all key rows, and these before all value rows; within a role the order is kept |
| QkvLayout.TargetsAreDistinct | llama.cpp/convert_hf_to_gguf.py:1664-1682 | no two source rows have the same target |
| QkvLayout.SourceExists | llama.cpp/convert_hf_to_gguf.py:1664-1682 | every row of the result is the target of some source row |
| QkvLayout.RegroupAt | llama.cpp/convert_hf_to_gguf.py:1283-1291 | taking the query, key and value parts of every group apart, flattening and concatenating them puts each source row at its target, all columns alike |
| QkvLayout.WeightsAt | llama.cpp/convert_hf_to_gguf.py:1279-1291 | GPT-NeoX and BLOOM weights: accepted, and each row at its target |
| QkvLayout.BiasAt | llama.cpp/convert_hf_to_gguf.py:1293-1302 | the same for the bias |
| QkvLayout.FalconAt | llama.cpp/convert_hf_to_gguf.py:1673-1682 | Falcon weights with any number of query heads for each key and value head: accepted, and each row at its target |
| BytePair.BestPair | llama.cpp/convert_hf_to_gguf.py:2687-2693 | the pair that is merged is the leftmost of the lowest-ranked adjacent pairs |
| BytePair.Bpe | llama.cpp/convert_hf_to_gguf.py:2684-2698 | the loops compute the run of merges to the limit, and end |
| BytePair.RunKeepsBytes | llama.cpp/convert_hf_to_gguf.py:2697 | from any list of parts, merging keeps their concatenation |
| BytePair.BpeSegments | llama.cpp/convert_hf_to_gguf.py:2684-2698 | the parts spell the token, each is one byte or ranked below the limit, and no adjacent pair has a rank below the limit |
| BytePair.OwnRankDoesNotCollapse | llama.cpp/convert_hf_to_gguf.py:869-874 | a token of several bytes run with its own rank as limit ends with at least two parts |
| BytePair.TwoPartsIff | llama.cpp/convert_hf_to_gguf.py:869-874 | no other entry having its rank, it ends with the two parts that are asserted exactly when merging one rank further gives the whole token |
| BytePair.RunIsStaged | llama.cpp/convert_hf_to_gguf.py:2685-2698 | running to a limit and then on to a higher one equals running straight to the higher one |
| BytePair.HigherLimitIsCoarser | llama.cpp/convert_hf_to_gguf.py:2685-2698 | a higher limit only removes cuts between parts |
| Experts.ExpertBuffers.constructor | llama.cpp/convert_hf_to_gguf.py:1931 | all buffers start empty |
| Experts.ExpertBuffers.TakeWeight | llama.cpp/convert_hf_to_gguf.py:1972-1977 | the inner loop takes one weight of every expert in order out of the buffer, up to the first that is missing |
| Experts.ExpertBuffers.MergeBlock | llama.cpp/convert_hf_to_gguf.py:1970-1986 | the three weights are merged, or it fails when one is missing; either way exactly the names before the first missing one are out of the buffer |
| Experts.ExpertBuffers.ModifyTensor | llama.cpp/convert_hf_to_gguf.py:1957-1988 | one arrival: stored, and its block merged once the buffer has three tensors for each expert; all buffers afterwards, also when it fails |
| Experts.ExpertBuffers.PrepareTensors | llama.cpp/convert_hf_to_gguf.py:2022-2029 | the final check fails exactly when a buffer is not empty |
| Experts.FullIffComplete | llama.cpp/convert_hf_to_gguf.py:1967 | counting to three times the number of experts is the same as having every expected name |
| Experts.BuffersHoldPending | llama.cpp/convert_hf_to_gguf.py:1956-1990 | over every order of arrival nothing fails, each buffer holds exactly what an incomplete block has received, and each arrival releases its block when it completes it |
| Experts.ReleasedIffComplete | llama.cpp/convert_hf_to_gguf.py:1967-1988 | a block is merged at some arrival exactly when everything it needs arrives |
| Experts.ReleaseIsCompletion | llama.cpp/convert_hf_to_gguf.py:1967-1988 | the arrival that merges a block is the one that completes it |
| Experts.ReleasedOnce | llama.cpp/convert_hf_to_gguf.py:1956-1990 | no block is merged twice |
| Experts.ReleasedInOrder | llama.cpp/convert_hf_to_gguf.py:1970-1986 | what is merged is three tensors, and index `x` of each holds the tensor that arrived for expert `x` |
| Experts.FinalCheckFailsIff | llama.cpp/convert_hf_to_gguf.py:2025-2029 | a buffer is left over exactly when some block has received a part of its experts but not all |
| Experts.MissingBlockGoesUnnoticed | llama.cpp/convert_hf_to_gguf.py:2025-2029 | a block of which nothing arrived is incomplete and leaves nothing over |
| Text.StripString | llama.cpp/common/common.cpp:403-413 | the two loops keep what is between the outermost characters that are not spaces |
| Text.StripTakesSpacesOff | llama.cpp/common/common.cpp:403-413 | the six characters of the C locale that are spaces are taken off both ends, all of them and nothing else |
| Text.StripIs | llama.cpp/common/common.cpp:403-413 | the stripped text is determined by its first and last character that is not a space |
| Text.StripGrows | llama.cpp/common/common.cpp:403-413 | stripping a beginning of a text gives a beginning of the stripped text |
| Text.StripNoticesTail | llama.cpp/common/common.cpp:403-413 | a dropped tail that is not blank is missed: the stripped text is then not a beginning of the rest stripped |
| PartialStop.Start | llama.cpp/common/common.cpp:448-465 | the leftmost place from which the text is a non-empty beginning of the stop word, none if there is none |
| PartialStop.FindPartialStop | llama.cpp/common/common.cpp:451-465 | the loop from the longest beginning to the shortest finds that place |
| PartialStop.NoLaterStopStartsEarlier | llama.cpp/common/common.cpp:451-465 | for every continuation, a stop word that reaches or passes the end of the text starts at the reported place or later |
| PartialStop.ReportedStartCanComplete | llama.cpp/common/common.cpp:451-465 | some continuation does complete the stop word at the reported place |
| ChatParser.MsgParser.constructor | llama.cpp/common/chat-parser.cpp:76-172 | a parser starts at the front of the text with empty fields |
| ChatParser.MsgParser.ConsumeSpaces | llama.cpp/common/chat-parser.cpp:76-84 | the position moves over all spaces, and says whether it moved |
| ChatParser.MsgParser.TryConsumeLiteral | llama.cpp/common/chat-parser.cpp:86-99 | succeeds exactly when the literal is at the position, and moves past it only then |
| ChatParser.MsgParser.TryFindLiteral | llama.cpp/common/chat-parser.cpp:101-123 | finds the first occurrence, or in a partial text a beginning of it at the end |
| ChatParser.MsgParser.ConsumeRest | llama.cpp/common/chat-parser.cpp:168-172 | takes everything that is left |
| ChatParser.MsgParser.AddReasoning | llama.cpp/common/chat-parser.cpp:132-146 | stripped thoughts go to their field, or with tags to the content; blank ones go nowhere |
| ChatParser.MsgParser.TryParseReasoning | llama.cpp/common/chat-parser.cpp:131-166 | all branches over forced thinking, the tags and what is cut short, with the position and both fields they leave |
| ChatParser.MsgParser.ParseThoughtsThenContent | llama.cpp/common/chat.cpp:1623-1628 | a format without tool calls: thoughts, then the rest is content |
| TaggedText.ClosedThoughts | llama.cpp/common/chat-parser.cpp:131-166 | of a text of start tag, spaces, thoughts, spaces, end tag, spaces and answer, exactly the thoughts and the answer are parsed, into two fields or with tags into the content |
| TaggedText.CutThoughts | llama.cpp/common/chat-parser.cpp:101-166 | a beginning of the end tag at the end of a partial text counts as the end tag |
| TaggedText.OpenThoughts | llama.cpp/common/chat-parser.cpp:155-163 | thoughts that are not closed: shown as closed in a whole text only |
| TaggedText.NoThoughts | llama.cpp/common/chat-parser.cpp:148-165 | with no thoughts looked for, or no start tag, the whole text is content |
| ReasoningStream.ReasoningIs | llama.cpp/common/chat-parser.cpp:131-166 | the parsed thoughts are the stripped text from the opening to the end tag or its beginning |
| ReasoningStream.RetreatStraddles | llama.cpp/common/chat-parser.cpp:149-154 | if a longer text is cut earlier than a shorter one, the end of the start tag is a beginning of the end tag and the two texts show how |
| ReasoningStream.ReasoningGrows | llama.cpp/common/chat-parser.cpp:131-166 | with thinking forced open, or tags that do not straddle, the thoughts parsed from a partial text are a beginning of those parsed from any longer text, partial or not |
| ReasoningStream.StraddlingTagsRetract | llama.cpp/common/chat-parser.cpp:131-166 | for any tags that straddle there are two texts of which the longer loses thoughts of the shorter |
| ReasoningStream.ReasoningGrowsIff | llama.cpp/common/chat-parser.cpp:131-166 | thoughts are never taken back on any pair of texts exactly when the tags do not straddle |
| ReasoningStream.SeparatedByLastCharacter | llama.cpp/common/chat-parser.cpp:131-166 | tags do not straddle if the start tag's last character is in the end tag at its end at most |
| ReasoningStream.TagsInUseAreSeparated | llama.cpp/common/chat.cpp:1271-1276 | the tags the formats use do not straddle |
| ReasoningStream.SeparationIsNeeded | llama.cpp/common/chat-parser.cpp:131-166 | tags that straddle exist |
| ChatDiff.ComputeDiffs | llama.cpp/common/chat.cpp:85-124 | the method with its early exceptions appends the reasoning, content, last-call and new-call deltas, or fails, as the specification does |
| ChatDiff.FailsUnlessComparable | llama.cpp/common/chat.cpp:31-124 | deltas exist exactly when both texts and the last call's arguments are comparable as prefixes, no call is gone and the last call keeps its name |
| ChatDiff.AppliedDiffs | llama.cpp/common/chat.cpp:85-124 | what a client holds after the deltas, also for messages that did not only grow |
| ChatDiff.ReconstructsIffGrows | llama.cpp/common/chat.cpp:85-124 | the deltas exist and give a client the new message exactly when it grew out of the old one |
| ChatDiff.OneDeltaForEachChange | llama.cpp/common/chat.cpp:85-124 | one delta for each thing that changed, in order: reasoning, content, the last old call, the new calls one by one; a name is sent with a new id only |
| ChatDiff.StreamReconstructs | llama.cpp/common/chat.cpp:85-124 | over any chain of growing messages no delta fails, and folding all of them over the first message gives the last |
| ServerSlot.Slot.constructor | llama.cpp/tools/server/server.cpp:1437-1450 | a slot starts with an empty message, no ids and nothing sent |
| ServerSlot.Slot.EnsureToolCallIdsSet | llama.cpp/common/chat.h:47-58 | each call gets the id kept for its place, the list of ids being that of `ServerSlot.KnownIds` |
| ServerSlot.KnownIds | llama.cpp/common/chat.h:47-58 | old places keep their ids, and a new place has the id its call comes with, or a generated one if that is empty |
| ServerSlot.Slot.UpdateChatMsg | llama.cpp/tools/server/server.cpp:1437-1450 | an empty message is ignored, any other gets its ids, is kept, and is compared with the one before, also when that fails |
| ServerSlot.EnsuredGrowsIff | llama.cpp/common/chat.h:47-58 | with kept ids a message counts as grown exactly when it grew apart from the ids it came with |
| ServerSlot.RunInStepIff | llama.cpp/tools/server/server.cpp:1437-1450 | over every run of parsed messages, with tool calls or without, no update fails and the client is in step after each one exactly when each message that is not empty grew out of the one before; it then ends with the last one under the kept ids |
| ServerSlot.IdsAreKept | llama.cpp/common/chat.h:47-58 | over every run, no id that a client was sent changes |
| ServerSlot.IdIsOfFirst | llama.cpp/common/chat.h:47-58 | over every run the id of a place is that of the first message with a call there |
| ServerSlot.ClientHoldsFirstIds | llama.cpp/tools/server/server.cpp:1437-1450 | so is the id under which a client holds the call, and it is not empty if no empty id is generated |
| ServerStream.MessageGrows | llama.cpp/common/chat.cpp:1623-1628 | the message parsed from a longer text grows out of the one parsed from a beginning of it, for formats that can be streamed and a beginning that was not cut inside a start tag that is completed |
| ServerStream.PieceIsSafeIff | llama.cpp/common/chat-parser.cpp:131-166 | in such a format nothing that may follow a text takes anything of its message back exactly when the text does not end inside the start tag |
| ServerStream.StreamableIff | llama.cpp/common/chat-parser.cpp:131-166 | all texts that do not end there are safe exactly in the formats whose tags do not straddle, or that force thinking open |
| ServerStream.ClientSeesTheParse | llama.cpp/tools/server/server.cpp:1437-1450 | over every run of texts that go on from one another, cut anywhere but inside a start tag that is completed, no update fails, the client is in step after each, and it ends with the parse of the whole text |
| ServerStream.RunIsSafeIff | llama.cpp/tools/server/server.cpp:1437-1450 | such a run stays in step whatever the model writes next exactly when its last text does not end inside the start tag |
| ServerStream.CutStartTagIsNotTakenBack | llama.cpp/tools/server/server.cpp:1437-1450 | a run of two texts, the first ending inside the start tag: nothing fails, and the client is left with content that is not in the message |
| JsonCleaner.Cleaner.constructor | llama.cpp/common/chat-parser.cpp:294-295 | an empty path and no marker found |
| JsonCleaner.Cleaner.ConsumeJsonWithDumpedArgs | llama.cpp/common/chat-parser.cpp:260-381 | the shortcuts for complete values, then the cleaned value with the flag |
| JsonCleaner.Cleaner.RemoveUnsupportedHealingsAndDumpArgs | llama.cpp/common/chat-parser.cpp:296-373 | the closure on the shared path and flag computes the specification's value, path and flag |
| JsonCleaner.Cleaner.CleanObject | llama.cpp/common/chat-parser.cpp:324-355 | the loop over members with its breaks that skip the pop |
| JsonCleaner.Cleaner.CleanArray | llama.cpp/common/chat-parser.cpp:356-371 | the loop over items |
| JsonPaths.TidyIsRight | llama.cpp/common/chat-parser.cpp:294-373 | if no part whose break leaves a key behind is followed by one that is looked up, cleaning with the shared path has the value, flag and failures of cleaning every value at its true path, although breaks skip the pop |
| JsonPaths.PathIsTrueIff | llama.cpp/common/chat-parser.cpp:294-373 | for all lists of paths the shared path is the true one at every lookup exactly under that condition |
| JsonPaths.OnSpineIsTidy | llama.cpp/common/chat-parser.cpp:324-371 | a marker in the last part of the last part, and so on, is enough for it |
| JsonHealing.HealedIsCleaned | llama.cpp/common/chat-parser.cpp:260-381 | of every truncated value, wherever the marker is, no key, string or argument text of the result holds the marker, and it is reported as partial exactly when the marker was in it |
| JsonHealing.CompleteIsPartialIff | llama.cpp/common/chat-parser.cpp:260-381 | a complete value is reported as partial exactly if it is a string at a content path, arguments paths being listed and none for the whole value, and its text is then lost |
| JsonKept.HealedKeepsTheRest | llama.cpp/common/chat-parser.cpp:260-381 | of every value, wherever the marker is, objects and arrays lose only what begins with a marked key or string; text at an arguments path is the dump, and at a content path the string, up to the marker and no less; all else is kept in order, up to where a key was left behind at its true path; a complete value of which no text is asked for is the same |
| JsonKept.ConsumeFailsIff | llama.cpp/common/chat-parser.cpp:312-315 | the only failure, and when there is one: a part at a content path, before the break, that is no string |
| JsonKept.OnlyTheLastIsMissing | llama.cpp/common/chat-parser.cpp:324-355 | with the marker in the last part, an object loses its last member at most |
| JsonKept.CompletePartIsKept | llama.cpp/common/chat-parser.cpp:294-381 | a part without the marker that holds no listed path is kept as it is |
| JsonRepeats.StoredIsParsed | llama.cpp/vendor/nlohmann/json.hpp:8903-8911 | a text with the marker in its last part is stored as a value with each key once and the marker in one place |
| JsonRepeats.ResultIsRightIff | llama.cpp/common/chat-parser.cpp:294-373 | for all lists of paths a stored value is cleaned to what its true paths give exactly when no part whose break leaves a key behind is followed by one that is looked up |
| JsonRepeats.TextIsCleanedRightIff | llama.cpp/common/chat-parser.cpp:294-373 | the same for truncated texts as they are stored; with no key written twice in an object they always are |
| JsonRepeats.KeyWrittenTwiceIsMisread | llama.cpp/common/chat-parser.cpp:324-355 | the text with a key written twice of which a member asked for as text stays a number |
| CommonRun.CellIsCommon | llama.cpp/common/common.cpp:1243-1259 | a cell of the table is the length of a common run that ends there |
| CommonRun.CommonFitsCell | llama.cpp/common/common.cpp:1243-1259 | no common run that ends there is longer |
| CommonRun.CommonLcs | llama.cpp/common/common.cpp:1221-1268 | the two-row loops return the length of the longest contiguous run common to both: one exists and none is longer |
| CommonRun.CommonLcp | llama.cpp/common/common.cpp:1214-1219 | the loop stops at the end of a sequence or at the first difference: the longest common prefix |
| CommonRun.LongestIsSymmetricAndUnique | llama.cpp/common/common.cpp:1221-1268 | the longest common run is one number, the same in either order of the arguments, and at least the length of every common prefix |
| SplitJoin.StringSplit | llama.cpp/common/common.cpp:483-497 | the loop cuts at the leftmost delimiters, for every delimiter that is not empty |
| SplitJoin.StringJoin | llama.cpp/common/common.cpp:472-481 | the loop puts the separator between the parts |
| SplitJoin.StringReplaceAll | llama.cpp/common/common.cpp:431-446 | the loop replaces the leftmost occurrences, and an empty search string nothing |
| SplitJoin.ReplaceIsJoinOfSplit | llama.cpp/common/common.cpp:431-497 | replacing is splitting at the search string and joining with the replacement |
| SplitJoin.JoinUndoesSplit | llama.cpp/common/common.cpp:472-497 | joining what was split gives the text back |
| SplitJoin.PartsHoldNoDelimiter | llama.cpp/common/common.cpp:483-497 | no part contains the delimiter |
| SplitJoin.ReplaceByItself | llama.cpp/common/common.cpp:431-446 | replacing a string by itself changes nothing |
| Escapes.DecodeOne | llama.cpp/common/common.cpp:607-633 | one turn writes the decoded characters behind the read index and leaves what is not read yet alone |
| Escapes.ProcessEscapes | llama.cpp/common/common.cpp:602-637 | the in-place loop leaves the left-to-right decoding of the original string in front of the write index |
| Escapes.DecodeUndoesDouble | llama.cpp/common/common.cpp:602-637 | doubling every backslash and decoding gives the original string, whatever follows it |
| Escapes.DecodeHex | llama.cpp/common/common.cpp:615-626 | every byte written as its two hexadecimal digits is decoded to that byte |
| Escapes.EveryTextHasPieces | llama.cpp/common/common.cpp:602-637 | every text is, in one way only, a sequence of plain characters, escapes with their six names, bytes of two hexadecimal digits (or a space or sign and one digit), and backslashes that escape nothing, and decoding replaces each by its meaning |
| Base64.SymbolHasItsValue | llama.cpp/common/base64.hpp:344-389 | reading a written symbol gives its six bits back, in both alphabets |
| Base64.SymbolIsListed | llama.cpp/common/base64.hpp:82-86 | the 64 characters of each alphabet in their order, and the padding character |
| Base64.ValueIsOfSymbol | llama.cpp/common/base64.hpp:344-389 | only the symbols have values |
| Base64.SizesAreOfBlocks | llama.cpp/common/base64.hpp:324-341 | the announced sizes are those of the fewest whole blocks |
| Base64.Encode | llama.cpp/common/base64.hpp:79-144 | the loop writes the symbols of all six-bit groups and the padding |
| Base64.DecodeSymbol | llama.cpp/common/base64.hpp:208-229 | one turn in place: the carried bits are six for each symbol less eight for each byte, and nothing unread is overwritten |
| Base64.DecodeInPlace | llama.cpp/common/base64.hpp:294-313 | decoding in place gives what decoding gives on every input, with floor(3k/4) bytes written after k symbols |
| Base64.Decode | llama.cpp/common/base64.hpp:199-244 | decoding into a buffer of its own gives the same |
| Base64Laws.EncodingSpellsBits | llama.cpp/common/base64.hpp:79-144 | the symbols of an encoding spell the bits of the input in order, filled up with zero bits |
| Base64Laws.DecodingSpellsBits | llama.cpp/common/base64.hpp:199-244 | whatever is accepted, the decoded bytes are the whole bytes at the front of the symbols' bits |
| Base64Laws.AcceptedIff | llama.cpp/common/base64.hpp:208-241 | with a fixed alphabet a text is accepted exactly when it has only symbols up to the first padding character and, unless decoding is loose, only padding after it |
| Base64Laws.DetectionLaw | llama.cpp/common/base64.hpp:344-389 | detection succeeds exactly when one of the fixed alphabets does, with the same bytes; mixed alphabets are refused |
| Base64Laws.RoundTrip | llama.cpp/common/base64.hpp:79-244 | decoding an encoding gives the input, with its alphabet or detection, strictly or loosely, with any number of padding characters |
| Base64Laws.RoundTripOfEncoded | llama.cpp/common/base64.hpp:79-244 | in particular with the padding that was written and without any |
| Base64Laws.Sizes | llama.cpp/common/base64.hpp:324-341 | the announced size of an encoding is exact, and that of a decoding an upper bound on every input |
| LineEditor.AppendUtf8 | llama.cpp/common/console.cpp:318-336 | appends the bytes of a code point, and nothing for a code above 0x10FFFF |
| LineEditor.PopBackUtf8Char | llama.cpp/common/console.cpp:339-353 | looks at most three bytes back for the start of the last character, and erases from there |
| LineEditor.PoppedIs | llama.cpp/common/console.cpp:339-353 | up to four bytes are taken off, all continuations but the first, which is one only if it is the fourth or the first of the buffer |
| LineEditor.PopUndoesAppend | llama.cpp/common/console.cpp:318-353 | popping undoes appending, whatever the buffer holds |
| LineEditor.EraseBack | llama.cpp/common/console.cpp:395-408 | the `do` loop of a backspace |
| LineEditor.SkipEscape | llama.cpp/common/console.cpp:385-394 | an escape sequence is discarded up to its final character, or one character after it |
| LineEditor.Press | llama.cpp/common/console.cpp:379-417 | one key that does not end the line: an escape sequence is skipped, a backspace erases, anything else is appended with its width |
| LineEditor.FinishLine | llama.cpp/common/console.cpp:426-456 | what follows the loop: a special last character, the newline, and whether more lines are wanted |
| LineEditor.ReadlineAdvanced | llama.cpp/common/console.cpp:355-456 | the loop over the keys with its special-character flag, and what is returned at the end |
| LineEditorLaws.Erased | llama.cpp/common/console.cpp:397-407 | a backspace takes the last run of width 0 and the one character before it |
| LineEditorLaws.Utf8Decodes | llama.cpp/common/console.cpp:318-336 | decoding the written bytes gives the code point back |
| Utf8Stream.ShortestForm | llama.cpp/common/console.cpp:318-336 | the lead byte tells the length, and the code point needs that many bytes |
| Utf8Stream.ReadIffEncoded | llama.cpp/common/console.cpp:318-336 | reading a buffer from the front by lead bytes, refusing forms that are not the shortest, gives code points exactly when the buffer is their encoding |
| LineEditorLaws.EncodingIsInjective | llama.cpp/common/console.cpp:318-336 | a buffer is the encoding of one sequence of code points only |
| LineEditorLaws.BackspaceInStepIff | llama.cpp/common/console.cpp:395-408 | a backspace keeps the buffer in step with the widths exactly when what it takes is all code points up to 0x10FFFF or nothing is left before it |
| LineEditorLaws.BackspaceOutOfStep | llama.cpp/common/console.cpp:395-417 | keys after which the buffer is empty and a width is left |
| LineEditorLaws.EditKeepsStep | llama.cpp/common/console.cpp:355-424 | after every sequence of keys of code points the buffer is the encoding of the surviving characters and the stack has one width for each |
| LineEditorLaws.SequenceDoesNothing | llama.cpp/common/console.cpp:385-394 | an escape sequence up to the first letter or tilde does nothing to the line, and nothing after it is skipped |
| LineEditorLaws.EscapeTakesOne | llama.cpp/common/console.cpp:385-394 | an escape with another character takes that one only |
| LineEditorLaws.ReadlineReturnsSurvivors | llama.cpp/common/console.cpp:355-456 | what is returned for the surviving characters: a final backslash continues the line, a final slash ends the input and is removed |

## Left out

- LoraTorchTensor.__getitem__: index lists or tensors in a tuple, and more than one ellipsis, which torch refuses; slices with a step below 1, which torch refuses.
- LoraConcat.CatCommutes: is for first dimensions that share A as stated; with a first dimension of 0 other lists can be multiplied too (`LoraConcat.CatWellFormedIff`), and whether their product is right then depends on the elements.
- Tensor element types, their conversion and rounding; a product is one of exact reals.
- SplitJoin.StringSplit: an empty delimiter, for which the source's loop does not end.
- QkvLayout.FalconAt: the index lists [-2] and [-1] are slices of one position, which select the same elements; rows that do not divide into the groups are refused by the source and are not described.
- Experts.BuffersHoldPending: is about checkpoints in which no expert tensor comes twice and every name is well formed.
- JsonHealing.HealedIsCleaned: writing a value out is an arbitrary function. Of it is assumed, for the value and every part of it, that the text of one with the marker shows the dump marker and nothing of the marker before it, and that of one without does not; this is what `common/json-partial.h` documents for the whole value. Nothing is assumed of a marked string alone when the dump marker begins with the colon, comma or quote before it.
- JsonRepeats.ResultIsRightIff: that healing puts the marker in the last part of a text, and that the marker is in no other place (`common/chat-parser.cpp` draws one that is not in the text), is assumed; the JSON parser and healer are not part of this model, but for where a repeated key is stored. For other values the condition is sufficient, and necessary for the path, but not for the result: an array with a part after the marked one can agree by its results alone.
- JsonKept.HealedKeepsTheRest: is about values in which no object has a key twice, which is what the JSON parser makes.
- JsonKept.ConsumeFailsIff: is about values for which the shared path is right.
- Utf8Stream.ReadIffEncoded: surrogates, which RFC 3629 leaves out, are encoded by the source like other code points, and read so here.
- LoraReshape.ReshapeAcceptedIff: is about factors with a rank above 0 whose A is one matrix; others are refused unless they are empty.
- ServerStream.ClientSeesTheParse: is about formats without tool calls; `ServerSlot.RunInStepIff` is for all. Stop words and other chat formats are not modelled, nor is reasoning kept inside the content, which is not claimed to grow.
- ReasoningStream.ReasoningGrows: reasoning extracted to a field of its own; inside the content the closing tag of an unfinished thought comes and goes.
- Regular expressions, Jinja templates, grammars, and the JSON parser and healer.
- The line editor's output to the terminal, its cursor movement and platform consoles: a key is a code and the width its output reports.
- Vocabularies, tokenizer libraries, GGUF writing, command-line options, downloads, files, CPU and GPU code.
