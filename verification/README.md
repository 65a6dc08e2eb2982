# Shikomi judge: a model of its trusted core

Shikomi judges submissions in Python, Rust and JavaScript. This project models, in Dafny, the parts of
it whose correctness decides a verdict or a session, and proves what they promise:

- **The JSON core of the Rust harness.** Text is printed and parsed by a recursive-descent parser with an
  index cursor and a depth cap, and takes exactly the texts of a grammar; equality is hand-written; canonical
  keys stand in for equality. Floats are exact: a double is a real number that rounding to 53 bits leaves alone.
  Python's printer, with which the worker writes every payload, is modelled beside Rust's.
- **The three order-insensitive comparisons**: sorted canonical keys (Rust), a `Counter` with a fallback
  loop (Python), find and splice (JavaScript); and on which values their answers are the same.
- **The random number generator**: xoshiro256** on 64-bit words, its SplitMix64 seeding, Lemire's draw,
  integer ranges and the Fisher-Yates shuffle.
- **The node codecs**: level-order trees with the search for cycles, cyclic lists answered by identity,
  random-pointer lists, adjacency-list graphs. Nodes live in a heap indexed by number.
- **The run report**: the parent's loop over untrusted children, the worker's account of its rows, the
  verdict, the validators' shared time.
- **Two protocols as state machines**: submissions (lock, row, job, sweep) and refresh-token rotation, each
  database statement or Redis command one atomic step, with the code of each operation proved, statement by
  statement, to take only those steps while anything else happens in between.
- **The tree drawing's layout.**

What surprised us:

- The parser does not undo the printer on every value. Whole floats of magnitude 10^16 or more are printed
  without a point; such a text can be read as a different integer, as 2^60 is (`JsonRoundTrip.LossyRoundTrip`).
  That happens exactly when a number within 512 of the float ends in more zeros than it and rounds to it
  (`JsonRoundTrip.ParserUndoesPrinter`). Canonical keys are exact all the same, and what Python prints always
  comes back as it was (`PythonRoundTrip.ParserUndoesPython`): it marks every float.
- "At most one live submit per user and problem" needs more than no lock expiry, no database failure and no
  duplicate job: a job cancelled while its failure handler writes frees the lock of a row it leaves `running`
  (`SubmissionExclusion.HandlerCutShortOverlaps`). `SubmissionLocks.Guard` lists the steps that put the
  property at risk, and `SubmissionExclusion.SafeExactlyWhenGuarded` shows that they are exactly those.
- JavaScript reads integers above 2^53 rounded, and takes a list for the object that has its indices as keys,
  so its comparison can accept what the other two refuse (`JavaScriptAgreement.JavaScriptRounds`,
  `JavaScriptAgreement.EmptyListIsEmptyObject`). These are the only two ways
  (`JavaScriptAgreement.JavaScriptAgreesEverywhere`).
- A Python run can end without a report: an integer too large for a double, as a claimed time or as an answer
  compared up to a tolerance, raises an exception that the loop does not catch (`RunReport.HugeRuntimeEndsRun`,
  `RunReport.HugeAnswerEndsRun`), and so do a write to a child that has exited and a frame that is not text.
  The docstring of `_Child.read` says that no frame aborts the run; the model follows the code
  (`RunReport.RunIsAccounted`).
- A report with every case passed can still get no verdict: the worker adds up the times the children claimed,
  and the sum raises when the integers before the first float come to more than a double holds
  (`RunReport.HugeTotalHasNoVerdict`). `RunReport.JudgeRun` accepts a run exactly outside that case.

`dafny verify dfyconfig.toml` checks the whole project.

## Model

| member | source | states |
|---|---|---|
| JsonValues.EqualIsEquivalence | judge/harness_rs/prelude.rs:64-91 | the hand-written equality is reflexive (NaN too), symmetric and transitive across Int and Num spellings, arrays and objects |
| JsonValues.EqualIffSameNormal | judge/harness_rs/prelude.rs:64-91 | two values are equal exactly when writing every i64-valued float as that integer makes them identical |
| JsonValues.LessMeans | judge/harness_rs/prelude.rs:57-62 | keys are in the order of the first character in which they differ, by code point, a prefix first |
| JsonText.CanonicalIsDumpOfNormal | judge/harness_rs/prelude.rs:120-133 | a canonical key is the ordinary text of the normal form, so joining, sorting and escaping agree with the printer |
| JsonRoundTrip.CanonicalIsExact | judge/harness_rs/prelude.rs:113-133 | canonical keys of any two values are the same text exactly when the values are equal |
| JsonRoundTrip.ValueRoundTrip | judge/harness_rs/prelude.rs:135-166 | from the text of a value followed by any text that cannot extend a number, the parser reads exactly that value and stops there, or fails for depth exactly when it nests too deeply |
| JsonRoundTrip.ParseOfDump | judge/harness_rs/prelude.rs:95-112 | parsing the text of a value succeeds exactly when it nests at most 512 deep, and gives it back with the floats printed as integers turned into those |
| JsonRoundTrip.ParserUndoesPrinter | judge/harness_rs/prelude.rs:95-166 | the value parsed back equals the value printed exactly when it nests at most 512 deep and no large whole float in it has a rounder number near it that rounds to it |
| JsonRoundTrip.LossyRoundTrip | judge/harness_rs/prelude.rs:256-266 | 2^60 as a float is printed and read back as the unequal integer 1152921504606847000 |
| JsonRoundTrip.OnlyLargeWholeFloatsAreLost | judge/harness_rs/prelude.rs:256-266 | a float alone comes back exactly on that condition, so only whole floats within i64's range and at least 10^16 in magnitude can be lost |
| JsonPlainText.DumpHasNoControls | judge/harness_rs/prelude.rs:135-166 | the text of a value holds no control character: every one in its strings is escaped |
| JsonPlainText.FloatHasNoExponent | judge/harness_rs/prelude.rs:256-266 | a float is written in full, digits with at most a point, however large or small it is |
| KeptDigits.KeepsDigitsIsFewest | judge/harness_rs/prelude.rs:256-266 | for a whole float between 10^16 and 2^63: no number within 512 of it that ends in more zeros rounds to it, exactly when no decimal that reads back as it has fewer digits than its own without their trailing zeros |
| KeptDigits.ComesBackExactly | judge/harness_rs/prelude.rs:392-407 | the integer read from a float's text, when one is read, is the float itself exactly on that condition on the float |
| KeptDigits.TieComesBack | judge/harness_rs/prelude.rs:256-266 | 2^54 + 4 has two shortest decimals, is printed with its own digits and comes back |
| NumberText.ReadFloatText | judge/harness_rs/prelude.rs:256-266 | the text of any finite double is one number token that reads back as that double, or as the integer it spells when it has no point and fits i64 |
| NumberText.Print63 | judge/harness_rs/prelude.rs:402-407 | no shortest decimal of 2^63 fits i64, although the largest i64 rounds to it |
| NumberText.PrintedIntegerRange | judge/harness_rs/prelude.rs:402-407 | a float whose text reads as an i64 is itself whole, in i64's range and at least 10^16 in magnitude |
| NumberText.ReadIntText | judge/harness_rs/prelude.rs:139-141 | the text of every i64 reads back as it |
| JsonParser.Parser.Ws | judge/harness_rs/prelude.rs:297-301 | the cursor moves past exactly the leading white space |
| JsonParser.Parser.ReadNumber | judge/harness_rs/prelude.rs:392-407 | the longest run of number characters is read as an i64 if it is one, else as a float, else refused |
| JsonParser.Parser.ReadHex4 | judge/harness_rs/prelude.rs:460-465 | four characters read as hexadecimal the way `from_str_radix` does, a leading plus sign included |
| JsonParser.Parser.ReadString | judge/harness_rs/prelude.rs:409-458 | escapes, surrogate pairs and the replacement character are decoded to the specified string, with the cursor after the closing quote |
| JsonParser.Parser.Value | judge/harness_rs/prelude.rs:316-390 | the cursor parser reads at every depth what the grammar's function reads, leaves the cursor where it stops, and ends on every input |
| JsonParser.Parser.Array | judge/harness_rs/prelude.rs:333-351 | the element loop reads the elements in order up to the closing bracket |
| JsonParser.Parser.Object | judge/harness_rs/prelude.rs:352-387 | the field loop keeps keys ordered, a later duplicate replacing an earlier one |
| JsonParser.ParseText | judge/harness_rs/prelude.rs:95-103 | a document is one value and white space, anything else is refused |
| JsonAccepts.ParsesExactlyTheGrammar | judge/harness_rs/prelude.rs:297-465 | a document is read as a value exactly when it spells, with white space around it, a syntax tree of the grammar that means the value and nests at most 512 deep; escapes, literals, numbers, delimiters and duplicate keys included |
| JsonAccepts.DeeperIsTooDeep | judge/harness_rs/prelude.rs:316-319 | a document of the grammar that nests deeper fails, and for that reason |
| Numerals.ReadsExactlyTheDecimals | judge/harness_rs/prelude.rs:392-407 | a text is read as a float exactly when it is a sign, digits with at most a point and an exponent, and then as the double nearest to that decimal |
| Numerals.ReadsExactlyTheIntegers | judge/harness_rs/prelude.rs:392-407 | and as an integer when it is digits with at most a sign, in i64's range |
| PythonRoundTrip.ParserUndoesPython | backend/worker/judging.py:76-88 | every value Rust can hold comes back exactly as it was from the text Python writes for it, or fails for depth exactly when it nests more than 512 deep |
| PythonRoundTrip.ParseOfPyDump | backend/worker/judging.py:76-88 | from anything Python can write, fields in any order, integers beyond i64 come back as the doubles they round to and fields in key order, the later of two equal keys winning |
| PythonRoundTrip.AsciiRoundTrip | judge/harness_rs/prelude.rs:409-458 | every string comes back from its ASCII text, a character beyond U+FFFF from its two surrogates |
| PythonRoundTrip.LoneSurrogate | judge/harness_rs/prelude.rs:437-451 | half of a pair by itself becomes the replacement character |
| PythonRoundTrip.PlusTaken | judge/harness_rs/prelude.rs:460-465 | a plus sign is taken for the first of four hexadecimal digits |
| PythonRoundTrip.OtherSpellings | judge/harness_rs/prelude.rs:409-465 | hexadecimal digits are read in either case, and an escaped slash as a slash |
| PythonRoundTrip.NothingElseAfter | judge/harness_rs/prelude.rs:95-103 | white space around a value is skipped; anything else after it is refused |
| PythonNumbers.ReadPyFloat | judge/harness_rs/prelude.rs:392-407 | the text Python writes for a finite float, with an exponent or without, is read as that float and never as an integer |
| JsonDepth.NestsTooDeeply | judge/harness.py:717-730 | the iterative walk says yes exactly when some value sits deeper than the limit, empty containers included |
| JsonDepth.SameDepthRefused | judge/harness.py:700-730 | Rust's parser accepts the text of {"ok": v} exactly when Python's walk accepts v |
| Comparison.NumbersDecide | judge/harness.py:753-763 | comparing two numbers up to a tolerance raises exactly when the first is an integer no double holds, or the second is and the first a float other than its equal; otherwise it accepts exactly two NaN, numbers equal by value, and numbers whose distance, exact for integers and else rounded once, is at most the tolerance |
| Comparison.ToleranceDecides | judge/harness.py:753-763 | comparing two values raises exactly at such numbers, or in two lists of one length where some position raises and every earlier one is accepted; otherwise lists are accepted position by position and anything else by value |
| Comparison.CompareDecides | judge/harness.py:828-846 | each mode decides what it is meant to, for values of any size: equality by value without NaN, some permutation, nearness, or one of the candidates; no mode but the tolerance raises |
| Comparison.RaisesOnlyOnOversized | judge/harness.py:753-763 | so a comparison that raises has met an integer too large for a double in one of the two values |
| Unordered.KeysDecide | judge/harness_rs/harness.rs:184-206 | for any exact key, some permutation matches two lists element by element exactly when their keys agree as multisets |
| Unordered.RustAccepts | judge/harness_rs/harness.rs:192-206 | comparing sorted canonical keys accepts exactly the lists some permutation matches, and plain equality otherwise |
| Unordered.SortedKeysDecide | judge/harness_rs/harness.rs:198-203 | two key lists sort to the same list exactly when they are equal as multisets |
| UnorderedPython.PyEqualIsSame | judge/harness.py:733-750 | for any two values Python reads, with integers of any size, its equality holds exactly when they are the same by value and there is no NaN in them |
| UnorderedPython.PyEqualIsEqual | judge/harness.py:733-750 | on i64 integers it holds exactly when Rust's does and there is no NaN |
| UnorderedPython.KeyIsExact | judge/harness.py:766-783 | hashable keys of any two values agree exactly when the values are the same, NaN included, a bool never matching a number |
| UnorderedPython.RemoveEach | judge/harness.py:815-825 | the nested loops answer whether each item of one list can be removed in turn, its first equal at a time, from the other |
| UnorderedPython.RemovesAllDecides | judge/harness.py:815-825 | that removal succeeds exactly when the lists agree as multisets by value and hold no NaN |
| UnorderedPython.PyMultisetEqual | judge/harness.py:790-825 | the counted keys, the fallback and the plain case give the specified answer on all values |
| UnorderedPython.PyUnorderedDecides | judge/harness.py:790-825 | Python accepts exactly the lists some permutation matches by value, except that a NaN equals nothing where there is an object in a list, or no list |
| UnorderedPython.PythonAgrees | judge/harness.py:790-825 | on i64 integers that is what Rust accepts, except for such a NaN |
| JavaScriptValues.DeepEqualIsEqual | judge/harness.js:88-110 | for any two values, `deepEqual` is Rust's equality of what JavaScript sees of them: integers rounded to doubles, and lists as objects keyed by index |
| UnorderedJavaScript.MultisetEqual | judge/harness.js:123-133 | find and splice accepts exactly the lists some permutation matches, and otherwise equal values, on what JavaScript sees |
| JavaScriptAgreement.JavaScriptAgrees | judge/harness.js:123-133 | when every integer is a double and no object has the keys of a list, JavaScript accepts exactly what Rust does |
| JavaScriptAgreement.JavaScriptAgreesExactly | judge/harness.js:123-133 | among values with no such object, JavaScript and Rust answer alike against every value exactly when no number in the one given shares its double with another i64 |
| JavaScriptAgreement.JavaScriptAgreesEverywhere | judge/harness.js:88-133 | among all values they do exactly when, besides, the one given holds no list and no object with the keys of one |
| JavaScriptAgreement.ListConfused | judge/harness.js:100-108 | JavaScript takes every list for the object with its indices as keys; Rust never does |
| JavaScriptAgreement.EmptyListIsEmptyObject | judge/harness.js:100-108 | {} against [] is accepted by JavaScript and refused by Rust |
| JavaScriptAgreement.SharedFrom53 | judge/harness.js:88-99 | integers below 2^53 in magnitude share their double with no other; 2^53 does, although it is exactly a double |
| SharedDoubles.AloneSharesNone | judge/harness.js:88-99 | a number whose double neither neighbouring integer rounds to shares it with no i64 at all |
| JavaScriptAgreement.JavaScriptRounds | judge/harness.js:88-133 | [2^53 + 1] against [2^53] is accepted by JavaScript and refused by Rust |
| RngState.StepIsBijection | judge/harness_rs/prelude.rs:1702-1712 | every state has exactly one predecessor: one draw is a bijection on the 256-bit states |
| RngState.StepKeepsNonzero | judge/harness_rs/prelude.rs:1702-1712 | a draw leads to the all-zero state only from itself |
| RngState.AfterIsInjective | judge/harness_rs/prelude.rs:1702-1712 | no number of draws merges two states or reaches zero from a non-zero one |
| RngState.MixIsInjective | judge/harness_rs/prelude.rs:1688-1696 | a SplitMix64 output determines its counter |
| RngState.SeededWordsDiffer | judge/harness_rs/prelude.rs:1688-1699 | for every seed the four words of the state are pairwise different, so it is never all zero |
| RngState.SeededNeverZero | judge/harness_rs/prelude.rs:1656-1699 | from any seed, no number of draws gives the all-zero state |
| RngWords.WordIsSecond | judge/harness_rs/prelude.rs:1702-1703 | a state gives a word exactly when its second word is one that the given word determines |
| RngWords.FourWordsAreAState | judge/harness_rs/prelude.rs:1702-1712 | any four words in a row are given by exactly one state, so all of them are equally likely |
| RngWords.FourWordsLater | judge/harness_rs/prelude.rs:1702-1712 | the same holds from any draw on |
| RngWords.FirstWords | judge/harness_rs/prelude.rs:1702-1712 | from the state (1, 2, 3, 4) come 11520, 0, 1509978240 and 1215971899390074240 |
| RngWords.SeededIsStream | judge/harness_rs/prelude.rs:1688-1699 | a seed's state is the first four outputs of its SplitMix64 stream, in order |
| RngWords.SeedsDiffer | judge/harness_rs/prelude.rs:1688-1699 | different seeds give different states |
| RngUniform.EarlyTestIsSound | judge/harness_rs/prelude.rs:1715-1725 | the cheap first test never lets a word through that the threshold would reject |
| RngUniform.ThresholdIsRemainder | judge/harness_rs/prelude.rs:1718-1719 | the wrapped negation modulo n is 2^64 mod n |
| RngUniform.DrawIsUniform | judge/harness_rs/prelude.rs:1658-1664 | for every bound n and every k below it, exactly floor(2^64 / n) words are accepted and give k |
| RngUniform.RejectsCount | judge/harness_rs/prelude.rs:1658-1664 | exactly 2^64 mod n words are rejected |
| RngUniform.SampleInRange | judge/harness_rs/prelude.rs:1758-1769 | for any integer type of 8 to 64 bits, no cast of a half-open sample wraps and the value stays in the range |
| RngUniform.RangeIsUniform | judge/harness_rs/prelude.rs:1764-1769 | every value of a half-open range comes from the same number of words |
| RngUniform.SampleIsOrdered | judge/harness_rs/prelude.rs:1764-1769 | the samples run from the start of the range upwards in the order of the words |
| RngUniform.SampleInclusiveInRange | judge/harness_rs/prelude.rs:1771-1780 | the raw word is used exactly for a whole 64-bit range, and no inclusive sample wraps or leaves its range |
| RngUniform.InclusiveIsUniform | judge/harness_rs/prelude.rs:1771-1780 | every value of an inclusive range, a whole 64-bit type included, comes from the same number of words |
| RngUniform.InclusiveIsOrdered | judge/harness_rs/prelude.rs:1771-1780 | so do those of an inclusive range |
| RandomNumbers.DrawIsFirstAccepted | judge/harness_rs/prelude.rs:1715-1725 | a draw gives the first accepted word of the generator's sequence and leaves the state right after it |
| RandomNumbers.Rng.Seed | judge/harness_rs/prelude.rs:1688-1699 | the constructor leaves the state of the seed |
| RandomNumbers.Rng.NextU64 | judge/harness_rs/prelude.rs:1702-1712 | the in-place updates give the word and the next state of the reference step |
| RandomNumbers.Rng.Below | judge/harness_rs/prelude.rs:1715-1725 | the value is the high word of the first accepted draw, below n, and the state is the one after that draw |
| RandomNumbers.Rng.GenRange | judge/harness_rs/prelude.rs:1764-1769 | an empty range is refused without a draw; otherwise the sample of the first accepted word, inside the range |
| RandomNumbers.Rng.GenRangeInclusive | judge/harness_rs/prelude.rs:1771-1780 | the same for inclusive ranges, with a single raw draw for a whole 64-bit range |
| RandomNumbers.Rng.Shuffle | judge/harness_rs/prelude.rs:1745-1749 | the array becomes the Fisher-Yates order of the generator's draws, and is a rearrangement even if cut short |
| Shuffling.ShuffledIsPermutation | judge/harness_rs/prelude.rs:1744-1749 | every sequence of draws rearranges its input |
| Shuffling.FirstDrawIsLast | judge/harness_rs/prelude.rs:1744-1749 | the first draw picks the last element, whose place the former last one takes; the rest are shuffled by the other draws |
| Shuffling.ShuffledIsInjective | judge/harness_rs/prelude.rs:1744-1749 | on distinct elements different draws give different orders |
| Shuffling.ShuffledIsSurjective | judge/harness_rs/prelude.rs:1744-1749 | every order is reached, by draws computed from it |
| FairShuffle.EveryOrderEquallyLikely | judge/harness_rs/prelude.rs:1744-1749 | the number of sequences of accepted words that lead to a given order is the same for every order |
| Trees.FlatIsInjective | judge/harness.py:265-298 | level order with trailing nulls ignored determines the trees of a queue |
| Trees.LevelOrderOfBuilt | judge/harness.py:206-230 | breadth first, the nodes built show exactly the slots they were built from, then nulls |
| Trees.FlattenOfBuild | judge/harness.py:206-298 | flattening a built tree gives the consumed prefix of the array with trailing nulls trimmed |
| Trees.BuildOfFlatten | judge/harness.py:206-298 | building the wire of any tree without null values gives nodes that stand for that tree |
| Trees.BuiltIsUnique | judge/harness_rs/prelude.rs:952-977 | the builders' specification has one solution, so the Python and Rust builders make the same nodes |
| TreeBuilders.BuildTree | judge/harness.py:206-230 | the walk over the growing list builds the specified heap and reads exactly the slots an existing node owns |
| TreeBuilders.DecodeTree | judge/harness_rs/prelude.rs:955-977 | the queue with its early exit builds the same heap |
| TreeCycles.TreeMeansNoCycle | judge/harness.py:240-262 | a node that stands for a finite tree reaches no node that reaches itself |
| TreeCycles.TreeHasCycle | judge/harness.py:240-262 | the iterative three-colour search ends on every finite heap, shared subtrees included, and answers yes exactly when a node reachable from the root reaches itself |
| TreeEncoder.LevelOrder | judge/harness.py:285-295 | the search with no visited set ends and writes the level order of the unfolded tree, or refuses past 2,000,000 entries |
| TreeEncoder.TrimEntries | judge/harness.py:296-298 | exactly the trailing nulls go |
| TreeEncoder.FlattenTree | judge/harness.py:265-298 | a cycle is refused exactly when there is one; otherwise the wire of the unfolding, or the size refusal |
| TreeEncoder.BuildThenFlatten | judge/harness.py:206-298 | building an array and flattening the result gives its consumed prefix, trailing nulls trimmed, or the size refusal exactly when its slots are too many |
| TreeEncoder.FlattenThenBuild | judge/harness.py:206-298 | flattening any heap that stands for a tree without null values, shared nodes included, and building the wire gives that tree again |
| CyclicLists.FollowsWire | judge/harness.py:317-337 | the node n steps from the head of a decoded [values, pos] list is the one the wire describes, looping at pos for ever or ending |
| CyclicLists.WrapsOnce | judge/harness.py:317-337 | an index from the end means the same place as the one from the start, and no other index is a place |
| CyclicLists.NodeStore.BuildCyclicList | judge/harness.py:317-337 | Python's nodes, with a negative position wrapped, an unusable one an error, and an empty list for no values |
| CyclicLists.NodeStore.DecodeCyclic | judge/harness_rs/prelude.rs:1069-1092 | Rust accepts exactly well-formed wires whose values fit i32, and builds the same nodes as Python |
| CyclicLists.NodeStore.EncodeByRegistry | judge/harness_rs/prelude.rs:1097-1106 | the search of the registry by identity gives the index Python stamped on the node, and null for a node the solution made |
| CyclicLists.LoadedWireAgrees | backend/app/schemas/problem.py:337-344 | a cyclic wire that passes the checks made at load time is decoded by Python and Rust into the same nodes |
| RandomLists.BuildRandomList | judge/harness.py:370-391 | on a well-formed wire the list meant, elsewhere indices wrapped or an error |
| RandomLists.DecodeRandom | judge/harness_rs/prelude.rs:1122-1138 | Rust accepts exactly well-formed wires whose values fit, and builds the same list |
| RandomLists.LoadedWireAgrees | backend/app/schemas/problem.py:345-350 | so is a random-pointer wire |
| RandomLists.WalkNext | judge/harness.py:172-196 | the walk ends on every heap, returns the whole list when `next` ends and refuses exactly when it loops |
| RandomLists.EncodeRandom | judge/harness.py:394-412 | each random pointer is written as its target's position in the returned list, or null when it is not on it |
| RandomLists.RandomRoundTrip | judge/harness.py:370-412 | encoding a decoded well-formed list gives its wire back |
| Graphs.BuildGraph | judge/harness.py:429-448 | on a well-formed wire the graph meant; it fails exactly when some index cannot even be wrapped |
| Graphs.DecodeGraph | judge/harness_rs/prelude.rs:1188-1202 | Rust accepts exactly well-formed wires, and builds the same graph |
| Graphs.LoadedWireAgrees | backend/app/schemas/problem.py:351-355 | so is a graph's adjacency list |
| Graphs.Visit | judge/harness.py:479-488 | the queue ends on cyclic graphs, finds each reachable node exactly once, and visits them in the specified breadth-first order |
| GraphOrder.NearerFirst | judge/harness.py:479-488 | what is visited earlier is at most as many steps from the start as what is visited later |
| Graphs.EncodeGraph | judge/harness.py:451-498 | one row per value up to the largest reached, each the neighbours of the node with that value visited last, or empty; larger than 2,000,000 is refused |
| Graphs.GraphRoundTrip | judge/harness.py:429-498 | encoding a decoded graph gives the rows of the nodes reached from node 1, empty rows for the others, cut after the last node reached |
| Graphs.GraphWireReturns | judge/harness.py:429-498 | the wire comes back exactly when its last node is reached and so is every node that has neighbours |
| RunReport.PassesOnlyWhenRight | judge/harness.py:1273-1345 | a reply makes no row exactly when its time is an integer too large for a double, its output text cannot be read, or comparing its value raises; otherwise the row passes exactly when the reply claims a value that is what the mode means by right, or that the validator accepts |
| RunReport.FailuresMean | judge/harness.py:1273-1345 | any other row is a wrong answer exactly when the value judged is not right, a time limit exactly on a hang or a timeout of the child or the validator, a judge error exactly on a probe's or the validator's fault, and a runtime error otherwise |
| RunReport.TimesMean | judge/harness.py:688-691 | a row's time is the finite number claimed, else zero; a crash has none and a case stopped at its limit gets the limit |
| RunReport.AttemptsFollow | judge/harness.py:1401-1436 | each attempt is what its frame makes it, made on the child that the last one left running, or on a new one after a hang, a crash or a timeout |
| RunReport.AttemptsAreFresh | judge/harness.py:1401-1436 | no case is sent to a child after one on which it hung, crashed or ran out of time |
| RunReport.EndsWhere | judge/harness.py:1401-1440 | a run covers every case or ends right after the first that raises or, when it stops early, fails |
| RunReport.RunCases | judge/harness.py:1397-1449 | the loop makes the attempts determined by starts, writes and frames; it reports, with a row and a time for each, exactly when none of them raised |
| RunReport.Run | judge/harness.py:1348-1449 | a validator that won't load or a child that won't start is one failing row for the first case; a start that raises is no report |
| RunReport.RunIsAccounted | backend/worker/aggregate.py:63-71 | for a non-empty list of cases the harness reports exactly when nothing raised, and every report passes the worker's account |
| RunReport.HugeRuntimeEndsRun | judge/harness.py:688-691 | a frame that claims 10^400 milliseconds, an integer of 401 digits, ends the run without a report |
| RunReport.HugeAnswerEndsRun | judge/harness.py:753-763 | so does an honest answer of 10^400 to a case that expects a number up to a tolerance |
| RunTimes.SumRaisesExactly | backend/worker/aggregate.py:118 | adding up the times raises exactly when the integers before the first float come to more than a double holds, or an integer after it does by itself; without floats the sum is exact |
| RunTimes.ZerosAddNothing | backend/worker/aggregate.py:118 | a missing time and a zero, a float zero too, leave the sum as it was |
| RunReport.CountIsSize | backend/worker/aggregate.py:74-126 | the count is the number of rows that passed |
| RunReport.Aggregate | backend/worker/aggregate.py:74-126 | container failures come first, then the sum of the times, which may raise and leave no verdict, then the first row that did not pass; accepted exactly when there is none of these |
| RunReport.AcceptedMeansAllPassed | backend/worker/aggregate.py:36-126 | without a container fault, accepted means one row per case, each with its case's id and passed, with times that can be added up, and the count is N of N; there is no verdict exactly when rows account for the cases and their times cannot be added up |
| RunReport.JudgeRun | backend/worker/aggregate.py:36-126 | without a container fault, a run is accepted exactly when every case was tried and answered with a right value and the integer times before the first float come to no more than a double holds; then the count is N of N |
| RunReport.HugeTotalHasNoVerdict | backend/worker/aggregate.py:118 | three cases answered right with times 2^1023, 2^1023 and 0.5 make an accounted report of three passed rows, and no verdict |
| ValidatorBudget.Pool.GiveBudget | judge/harness_rs/harness.rs:1183-1189 | what leaves the pool is the top-up, never more than it holds |
| ValidatorBudget.BudgetIsFair | judge/harness_rs/harness.rs:1168-1189 | at least the rest of the limit and 1 ms, at least 20 ms while the pool holds them, and no top-up for a case with 20 ms left |
| ValidatorBudget.ShortfallIsPaid | judge/harness_rs/harness.rs:1183-1189 | a case is given what it falls short of 20 ms, or all the pool has left when that is less |
| ValidatorBudget.PoolPaysShortfalls | judge/harness_rs/harness.rs:1174-1189 | over a run the pool pays every shortfall in full, whatever their order, as long as they add up to no more than it holds, and is empty once they add up to more |
| ValidatorBudget.PoolIsConserved | judge/harness_rs/harness.rs:1174-1189 | over any run, cases without a validator included, the pool left and the top-ups given make up the pool |
| ValidatorBudget.RunIsBounded | judge/harness_rs/harness.rs:1174-1189 | n cases within their limit and their validators take at most n limits, 2 s and n ms |
| ValidatorBudget.JudgeCases | judge/harness_rs/harness.rs:1183-1189 | each validator that is asked gets the budget for what the ones before it left in the pool, the other cases take nothing, and what is left and given makes up 2 s |
| Submissions.CalmKeepsInv | backend/worker/judge.py:92-104 | steps that only settle or remove rows keep: a pending row is unclaimed, a running one claimed, no id claimed twice |
| SubmissionRuns.StepKeepsInv | backend/worker/judge.py:57-156 | so does every step of requests, jobs, duplicates, sweeps, deletions and failures |
| SubmissionRuns.ClaimedAtMostOnce | backend/worker/judge.py:92-104 | in every interleaving a submission is claimed at most once, and no more sandboxes start than claims |
| SubmissionSafety.FailedStaysFailed | backend/worker/judge.py:87-104 | a row failed while unclaimed stays judge_error in every continuation, until deleted, and is never claimed |
| SubmissionSafety.LockGoesByOwnerOrExpiry | backend/app/queue.py:122-148 | a held lock goes only by expiry or by a release for its owner, and never changes hands directly |
| SubmissionHistory.LockIsLastTaken | backend/app/queue.py:122-148 | in every run a lock is held by the submission that took it last, until it is released for that one or expires |
| SubmissionVerdicts.StatusIsLastWrite | backend/worker/judge.py:92-151 | in every run a row is there exactly when it was written and not deleted since, and has the status of the last write: a request's, a claim, a verdict, a failure, an undo or a sweep |
| SubmissionVerdicts.SettledIsAVerdict | backend/worker/judge.py:128-135 | in every run a row has a verdict exactly when the last write on it was that verdict, from the run that claimed it, and then it was claimed once |
| SubmissionHistory.SandboxedWhenClaimed | backend/worker/judge.py:92-127 | in every run a submission has had one sandbox exactly when a job has claimed it, else none |
| SubmissionHistory.EnqueuedWaits | backend/worker/sweeper.py:104-140 | a job enqueued, or a lost one put back by a sweep, waits unless its id is known already |
| SubmissionHistory.DeliveredLeaves | backend/worker/judge.py:57-82 | a delivery takes the job off the queue unless it will come again, and changes nothing else there |
| SubmissionLinks.StepKeepsLinks | backend/app/services/submission_service.py:98-152 | in every run, whatever fails, ids are used once and the rows, requests and jobs that name a submission agree on its key and kind |
| SubmissionLocks.GuardKeepsLocks | backend/app/services/submission_service.py:98-152 | a step that meets its guard keeps every live or opening submit's lock its own, with nobody about to release a live one's |
| SubmissionExclusion.UnguardedOverlaps | backend/app/services/submission_service.py:98-152 | after any step that breaks its guard, a submission that begins and the releases then due lead to two live submits of one key |
| SubmissionExclusion.StepKeepsExclusion | backend/app/services/submission_service.py:98-152 | a step keeps the locks, and keeps the state one from which no such overlap can come, exactly when its guard holds |
| SubmissionExclusion.SafeExactlyWhenGuarded | backend/app/services/submission_service.py:98-152 | every state of a run is safe in that sense exactly when every step of the run met its guard |
| SubmissionExclusion.OneLiveSubmit | backend/app/services/submission_service.py:98-105 | in a run whose steps all meet their guards, each live submit holds its lock and no two of one user on one problem are pending or running together |
| SubmissionExclusion.HandlerCutShortOverlaps | backend/worker/judge.py:137-156 | a job cancelled inside its failure handler lets two submits be live at once, with no expiry and no database failure |
| SubmissionLoads.LostClaimIsOver | backend/worker/judge.py:100-104 | in a run where no submission is loaded twice, a job that loses its claim finds the row settled or gone, so its release meets the guard |
| SubmissionCode.Pipeline.CreateSubmission | backend/app/services/submission_service.py:98-152 | a request only takes steps of the protocol, answers as its faults and the lock decide, leaves nothing of its own behind, undoes a row it could not enqueue, and gives its lock back whenever it must |
| SubmissionCode.Pipeline.UndoRow | backend/app/services/submission_service.py:125-152 | only a row still pending is failed, and the lock is given back exactly when it was, or when that cannot be told |
| SubmissionCode.Pipeline.ClaimRow | backend/worker/judge.py:92-104 | the job goes on to judge exactly when nothing failed and its claim found the row pending |
| SubmissionCode.Pipeline.RunSandbox | backend/worker/judge.py:118-135 | what the sandbox said is written on the row, if it is still there, and on no other; a cancellation or a failure writes nothing |
| SubmissionCode.Pipeline.JudgeSubmission | backend/worker/judge.py:57-156 | a job that found its row makes its claim, writes the verdict when it won it, and always ends with the release, whatever failed or was cancelled on the way |
| SubmissionCode.Pipeline.SettleRow | backend/worker/judge.py:137-151 | a failure settles the row, a cancellation only an unfinished one, and both end ready to release |
| SubmissionCode.Pipeline.SweepStale | backend/worker/sweeper.py:70-93 | one update fails the stale rows, and for each of them the release is made afterwards, or dropped when Redis fails |
| RefreshTokens.StepKeepsInv | backend/app/services/auth_service.py:171-260 | every statement, commit and rollback keeps: one claim per token, grace only between the claim and its spending, a locked row as its update found it, one successor per winning rotation |
| RefreshTokens.AtMostTwoSuccessors | backend/app/services/auth_service.py:171-243 | under any interleaving a token gets at most two successors, one by the claim and one by a grace at most ten seconds after it |
| RefreshTokens.RevokeAllSpends | backend/app/services/auth_service.py:154-161 | every token that a revocation of its user's sessions finds, and one logged out, is consumed and out of grace afterwards |
| RefreshTokens.SpentWinsNothing | backend/app/services/account_service.py:210-222 | a token consumed and out of grace wins nothing and gets no further successor in any continuation |
| RefreshTokens.RevokedNeverRotates | backend/app/services/auth_service.py:154-161 | a token found when its user's sessions were all revoked, by a password change or for reuse, or logged out, never wins a claim or grace again and gets no further successor |
| RefreshSessions.SuccessorsKeepTheSession | backend/app/services/auth_service.py:246-260 | in every run, whatever is pruned, each token is of the user and the persistence it was issued with at its login, and a successor of those of its parent |
| RefreshSessions.RevocationReaches | backend/app/services/auth_service.py:154-161 | a revocation, for reuse too, spends every token of that user that it finds, successors included |
| RefreshSessions.EndingSpares | backend/app/services/account_service.py:196-222 | it leaves other users' tokens as they were, and does not revoke the session kept; a logout revokes no other session |
| RefreshSessions.FirstUse | backend/app/services/auth_service.py:214-260 | an active token used alone before its time is consumed, and an active one of the same session issued |
| RefreshSessions.UseInGrace | backend/app/services/auth_service.py:229-243 | within ten seconds of that it is honoured once more, and is then out of grace |
| RefreshSessions.UseAgain | backend/app/services/auth_service.py:154-161 | any other use of it revokes every session of its user and nobody else's |
| RefreshSessions.UseExpired | backend/app/services/auth_service.py:214-220 | an active token past its time gets nothing and changes nothing |
| RefreshCode.TokenStore.RotateRefreshToken | backend/app/services/auth_service.py:171-260 | a rotation's answers follow its statements, each waiting for the rows it changes: expired exactly when active and past its time, a new token only from a recorded win, which is then an active row of the old one's user and persistence, reuse only after revoking everything |
| RefreshCode.RotatedMeansWon | backend/app/services/auth_service.py:214-260 | every successor's rotation is the one recorded as having won its parent |
| TreeLayout.NodesWithin | frontend/src/pages/workspace/NodeDiagram.tsx:38-70 | a subtree keeps half a slot inside the stretch the cursor moves over |
| TreeLayout.NodesApart | frontend/src/pages/workspace/NodeDiagram.tsx:29-70 | nodes of one depth stand in order and at least one slot apart |
| TreeLayout.ChildrenLean | frontend/src/pages/workspace/NodeDiagram.tsx:29-70 | each child stands at least half a slot to its own side of its parent, only children too |
| TreeLayout.Layout.Place | frontend/src/pages/workspace/NodeDiagram.tsx:48-67 | the recursion over the shared cursor records exactly the specified place of every node |
| TreeLayout.LayoutTree | frontend/src/pages/workspace/NodeDiagram.tsx:38-70 | in the finished map, nodes of one depth are a slot apart and every edge leans to its side |

## Left out

- RandomNumbers.Rng.Below: a draw may be rejected any number of times, but the method is given how many rejections it may use up and returns nothing beyond that; that a generator's sequence always reaches an accepted word is not shown.
- RandomNumbers.Rng.Shuffle: the same bound holds for each of its draws; when one runs out, the elements are left rearranged part way.
- JsonParser.Parser.Value: works on characters where the code works on UTF-8 bytes; messages and byte positions in errors are left out, and all failures of an escape are one error.
- PythonText.PyDump: strings that hold half of a surrogate pair, which Python's can; `PythonRoundTrip.LoneSurrogate` says what becomes of one.
- NumberText.ReadFloatText: of two shortest decimals equally close to a float, which one std prints is left open; the results hold for either.
- RefreshTokens.AtMostTwoSuccessors: times are the clock readings of the rotations themselves.
- RefreshTokens.RevokedNeverRotates: a successor committed while the revocation was already waiting is not among the rows it finds, as in the database.
- SubmissionRuns.ClaimedAtMostOnce: each statement and its commit are one step, so a reader never sees another transaction's uncommitted row.
- TreeLayout.LayoutTree: a node's depth is its depth in the tree; the code looks it up in the graph it is given.
- The tolerance of floats and the `any_of` mode in Rust and JavaScript.
- RunReport.RunCases: a frame that stops in the middle of a line, and a child that reads none of its input, block the parent without a deadline and are not modelled.
- Decoding arguments into a submission's types, node values other than integers, and Rust's refusal of a tree value outside i32.
- Random floats and booleans, `choose`, and seeding from the operating system.
- Singly linked lists without a second pointer, whose encoder walks `next` as the random-pointer list does.
- Output, stdout and error texts of a report row, the value of a sum of times with a float in it, and what the database makes of the verdict.
- The Rust and JavaScript run loops, and the Python validator's time limit.
- Rate limits, language checks and authorization of a request; ages of rows are arbitrary, so any live row may be swept at any time.
- Whether a submission is ever judged: the protocol results are about safety.
- The registry that keeps decoded nodes alive, and object identity beyond node numbers.
- Sandboxing, cryptography, mail, HTTP and the user interface.
