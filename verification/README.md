# MeCab for Node: output tokenizer, engine options and the N-best agenda

This project models, in Dafny, two pieces of a Node.js binding of the MeCab
morphological analyzer, with its Korean (mecab-ko) variant:

- **The JavaScript front end** (`src/index.mjs`). The `MeCab` constructor
  normalises its options: the engine is trimmed, lower-cased and looked up in
  the engine table, and a string `dictPath` is trimmed and overrides the
  bundled dictionary. It then checks that the dictionary directory exists and
  lists the five files of a compiled dictionary. `parse` cuts the native
  tagger's output into lines on runs of `\r`/`\n` and builds a `Token` from
  every line before the first `EOS` line. A `Token` keeps the surface before
  the tab and the comma-separated feature slots after it. Its getters read
  fixed slots for the Korean engine. `"*"` reads as `null`, `"+"` separates
  compound parts, and `"/"` separates the fields of an `ExpressionToken`.
  JavaScript's `null`, `undefined` and the `TypeError` of `.split` on a
  missing slot are kept apart.
- **The A\* agenda of the N-best generator**
  (`src/mecab-jp/nbest_generator.h`). It covers the `QueueElement` record, the
  comparator `QueueElementComp`, and the `std::priority_queue` of element
  pointers ordered by it. That queue is a binary min-heap on `fx`, with
  `push`, `top`, `pop` and `empty`.

Modules:

| file | module | contents |
|---|---|---|
| `wrappers.dfy` | `Wrappers` | `Option`, `Result` |
| `js_strings.dfy` | `JsStrings` | the JavaScript string operations the front end uses: `split` on one character, `join`, `split(/[\r\n]+/)`, `trim`, `toLowerCase` |
| `tokens.dfy` | `Tokens` | `Token`, `ExpressionToken` and their getters |
| `analyzer.dfy` | `Analyzer` | option normalisation, the dictionary check, the `MeCab` class and `parse` |
| `nbest_agenda.dfy` | `NBestAgenda` | `QueueElement`, the comparator, the agenda heap |

Decisions and deviations:

- **Tokens are values.** A `Token`'s private fields are assigned once, in its
  constructor, and no method of the class reassigns them. So `Token` and
  `ExpressionToken` are datatypes. The `features` getter hands out the
  token's own array, which a caller can write to; see "Left out". Building one can throw, so construction is a function returning a
  `Result` (`NewToken`, `NewExpressionToken`).
- **The `MeCab` class.** The JavaScript constructor can throw, so it is
  modelled by the factory method `Open`. `Open` returns either the error or a
  new `MeCab` object. The engine and dictionary path the object keeps never
  change afterwards.
- **Inputs.** The native tagger's output is the argument of `Parse`. The file
  system is a map from path to entry. A path that is not a directory stands
  for a `readdirSync` that throws.
- **Tie-breaking in the agenda.** The comparator compares `fx` alone, and
  `std::priority_queue` is not stable. `EqualEstimatesIncomparable` proves
  that equal estimates are incomparable, and nothing orders them.
- **Integer width.** `long` is taken as 64 bits, as on LP64 platforms.

## Model

| member | source | states |
|---|---|---|
| JsStrings.Split | src/index.mjs:108-111 | splitting on one character gives one more part than there are separators; no part holds the separator; the first part is the text before the first separator |
| JsStrings.JoinSplit | src/index.mjs:168-170 | joining the parts of a split with the same separator gives the string back |
| JsStrings.SplitJoin | src/index.mjs:108-111 | splitting the join of separator-free parts gives the parts back |
| JsStrings.Join | src/index.mjs:169 | an empty list joins to `""` and one part to itself; with more parts the first one opens the join and the separator follows it; when no part holds the separator, the join holds exactly one fewer separators than there are parts |
| JsStrings.JoinAvoids | src/index.mjs:169 | a join of parts that avoid a character other than the separator avoids it too |
| JsStrings.SplitLines | src/index.mjs:78 | the output always has at least one line; no line holds `\r` or `\n`; no line between the first and the last is empty; the first line is non-empty when the text does not start with a break |
| JsStrings.SplitLinesJoin | src/index.mjs:78 | lines without breaks whose interior lines are non-empty, joined with `\n`, split back into exactly those lines |
| JsStrings.SplitLinesBreakRun | src/index.mjs:78 | a run of `\r`/`\n` of any length in front of text that does not start with a break opens exactly one empty line |
| JsStrings.SplitLinesInterleave | src/index.mjs:78 | lines without breaks whose interior lines are non-empty, with any non-empty runs of `\r`/`\n` between them, split back into exactly those lines: every run is one separator |
| JsStrings.TrimStart | src/index.mjs:33 | the result is the suffix of the input after a run of whitespace, and does not start with whitespace |
| JsStrings.TrimEnd | src/index.mjs:33 | the result is the prefix of the input before a run of whitespace, and does not end with whitespace |
| JsStrings.Trim | src/index.mjs:33 | a trimmed string neither starts nor ends with whitespace, and is empty exactly when the input is all whitespace |
| JsStrings.TrimIdempotent | src/index.mjs:44 | trimming twice is trimming once |
| JsStrings.TrimUntouched | src/index.mjs:33 | a string without whitespace at either end is left as it is |
| JsStrings.TrimPadded | src/index.mjs:44 | any whitespace around a word is removed and the word is kept |
| JsStrings.ToLowerChar | src/index.mjs:33 | ASCII capitals map to their lower case and U+212A KELVIN SIGN to `k`; every other character is kept |
| JsStrings.ToLower | src/index.mjs:33 | lower-casing keeps the length and maps every character on its own |
| JsStrings.LowerUntouched | src/index.mjs:33 | a string with nothing to lower-case is left as it is |
| Tokens.EngineFromName | src/index.mjs:102-104 | only the exact names `"jp"` and `"ko"` are engines, and each gives its name back |
| Tokens.EmptyAsNullReadsSlot | src/index.mjs:164 | `v !== "*" ? v : null` on a slot reads a missing slot as `undefined`, `"*"` as `null` and anything else as itself |
| Tokens.NewToken | src/index.mjs:101-112 | an unknown engine throws naming it; a line without a tab throws a TypeError; otherwise the surface is the text before the first tab, the features join back to the text between the first and second tab, and no feature holds a comma |
| Tokens.NewTokenParts | src/index.mjs:108-111 | a built token holds the first tab-separated part and the second one split on `,` |
| Tokens.TokenFromFields | src/index.mjs:108-111 | a line written as a surface, a tab and comma-joined slots builds exactly that token |
| Tokens.Token.Raw | src/index.mjs:168-170 | the surface opens `raw` and a tab follows it; when no feature holds a comma, what follows the tab splits on `,` into the features again |
| Tokens.RawRoundTrip | src/index.mjs:168-170 | `raw` is a prefix of the line the token came from, and equals it exactly when the line holds one tab |
| Tokens.Token.Base | src/index.mjs:114-126 | `jp` gives `null`; for `ko`, the surface when slot 4 or 7 is `"*"`; a TypeError when slot 4 is not `"*"` and slot 7 is missing; otherwise the text of slot 7 before the first `/` |
| Tokens.Token.Expression | src/index.mjs:128-134 | `jp` gives `null`; for `ko`, `null` when slot 7 is `"*"`, a TypeError when it is missing, else one expression token per `+`-part of slot 7, in order, joining back to the slot, each a valid token whose fields hold no `/` (so, by `ExpressionTokenOfText`, the `/`-split of its part) |
| Tokens.NewExpressionTokens | src/index.mjs:130 | one expression token per part, each the token `new ExpressionToken` builds from that part |
| Tokens.Token.HasBatchim | src/index.mjs:140-146 | `jp` gives `null`; `ko` gives true exactly when slot 2 exists and is `"T"` |
| Tokens.Token.HasJongseong | src/index.mjs:148-154 | the same as `hasBatchim` |
| Tokens.BatchimIsJongseong | src/index.mjs:140-154 | `hasBatchim` and `hasJongseong` always agree |
| Tokens.Token.Pos | src/index.mjs:156-160 | `jp` gives `undefined`; `ko` gives the `+`-parts of slot 0, which join back to the slot |
| Tokens.Token.Pronunciation | src/index.mjs:162-166 | `jp` gives `undefined`; `ko` reads slot 3 with `"*"` as `null` |
| Tokens.Token.Reading | src/index.mjs:172-176 | `jp` gives `undefined`; `ko` reads slot 3 with `"*"` as `null` |
| Tokens.Token.SemanticClass | src/index.mjs:178-184 | `jp` gives `null`; `ko` reads slot 1 with `"*"` as `null` |
| Tokens.Token.Type | src/index.mjs:190-196 | `jp` gives `null`; `ko` reads slot 4 with `"*"` as `null` |
| Tokens.EmptySlotIsNull | src/index.mjs:162-196 | no slot getter ever answers `"*"`; each is `null` exactly when its slot is `"*"`; `pronunciation` and `reading` agree |
| Tokens.JapaneseGetters | src/index.mjs:114-196 | for `jp`, `pos`, `pronunciation` and `reading` give `undefined` and every other engine-specific getter gives `null` |
| Tokens.KoreanGettersDefined | src/index.mjs:114-134 | for `ko`, `expression` throws exactly when slot 7 is missing; with eight slots no getter throws or gives `undefined` |
| Tokens.NewExpressionToken | src/index.mjs:202-204 | there is one more field than the part has `/`s, no field holds `/`, and the fields join back to the part with `/`; the morpheme is the text before the first `/` |
| Tokens.ExpressionTokenOfText | src/index.mjs:202-204 | a valid expression token is exactly the one its own text builds, so its fields are determined by its part |
| Tokens.ExpressionPosOfPart | src/index.mjs:202-212 | the POS of a part is `undefined` exactly when the part holds no `/`, and otherwise the text after its first `/`, up to the next `/` or the end |
| Tokens.ExpressionToken.Morpheme | src/index.mjs:206-208 | the morpheme is the text of the part before its first `/` |
| Tokens.ExpressionToken.Pos | src/index.mjs:210-212 | field 1, or `undefined` when the part has no `/` |
| Tokens.ExpressionToken.SemanticClass | src/index.mjs:214-216 | field 2 with `"*"` as `null`, `undefined` when missing |
| Analyzer.AcceptsEngineAsWritten | src/index.mjs:35 | the lookup as written accepts every key of the engine table (and, by `AsWrittenDiffersOnInherited`, two keys more) |
| Analyzer.TableEngine | src/index.mjs:10-13 | the engine table's own keys are `"jp"` and `"ko"`, each naming its engine |
| Analyzer.Configure | src/index.mjs:30-46 | no options give `jp` and its dictionary; an engine option is accepted exactly when its trimmed lower-cased form is a table key, and is otherwise refused naming the option as given; a string `dictPath` is trimmed and overrides the chosen engine's dictionary |
| Analyzer.NormalizeEngine | src/index.mjs:33 | the normalised option has no whitespace at either end and no ASCII capital, and is empty exactly when the option is all whitespace |
| Analyzer.ConfigureRejects | src/index.mjs:38-40 | an engine that is not in the table is refused with the option as given |
| Analyzer.EnginePaddingIgnored | src/index.mjs:33 | whitespace around the engine option changes nothing |
| Analyzer.TwoLetterEngine | src/index.mjs:33-37 | a two-letter option selects the engine its lower-cased letters name |
| Analyzer.UpperKoSelectsKorean | src/index.mjs:33-37 | `"KO"` selects `ko` with its dictionary |
| Analyzer.KelvinKoSelectsKorean | src/index.mjs:33-37 | U+212A KELVIN SIGN followed by `o` selects `ko` |
| Analyzer.UpperJpSelectsJapanese | src/index.mjs:33-37 | `"JP"` selects `jp` with its dictionary |
| Analyzer.DictPathOverrides | src/index.mjs:43-45 | a padded `dictPath` becomes the trimmed path whatever the engine |
| Analyzer.ConfiguredEngineTokenizes | src/index.mjs:102-111 | every engine the corrected check accepts is one `Token` accepts, so building a token fails only for a line without a tab |
| Analyzer.HasCompiledDictionary | src/index.mjs:50-56 | the listing passes exactly when it contains all of `char.bin`, `dicrc`, `matrix.bin`, `sys.dic` and `unk.dic` |
| Analyzer.Open | src/index.mjs:30-66 | option errors pass through; a missing path fails naming it; otherwise the object is built exactly when the path is a directory listing every expected file, and it keeps the configured engine and path |
| Analyzer.MeCab.constructor | src/index.mjs:65 | the object keeps the configured engine and dictionary path |
| Analyzer.MeCab.Parse | src/index.mjs:74-87 | the result is the collection of the tokens built from the lines before the first `EOS` |
| Analyzer.FirstEos | src/index.mjs:79 | the index of the first `EOS` line, or the number of lines |
| Analyzer.LineResults | src/index.mjs:78-84 | one token-building result per line before the first `EOS`, in order |
| Analyzer.Collect | src/index.mjs:78-86 | a successful collection holds one token per result |
| Analyzer.CollectOk | src/index.mjs:78-86 | collecting succeeds exactly when every result is a token, and then gives those tokens in order |
| Analyzer.CollectErr | src/index.mjs:81 | when collecting fails, its error is that of the first failed result, and every earlier result is a token |
| Analyzer.ParseOutcome | src/index.mjs:74-87 | `parse` succeeds exactly when every line before the first `EOS` builds, and then yields one token per such line in order; otherwise it throws the error of the first line that does not build |
| Analyzer.OutputLinesBeforeEos | src/index.mjs:78-79 | for output written as token lines, `EOS` and a final break, the lines before `EOS` are exactly the token lines |
| Analyzer.BreakRunIsOneSeparator | src/index.mjs:78 | `"a\r\n\r\nb"` splits into just `"a"` and `"b"` |
| Analyzer.EdgeBreaksGiveEmptyLines | src/index.mjs:78 | a break at either end gives an empty first and last line |
| Analyzer.AsWrittenDiffersOnInherited | src/index.mjs:35 | the lookup as written accepts the table keys plus `"constructor"` and `"__proto__"`, and nothing else |
| Analyzer.InheritedKeyAccepted | src/index.mjs:33-37 | an option normalising to an inherited member name passes the check as written, `Token` rejects that engine on every line, and the corrected check refuses it up front |
| Analyzer.InheritedKeysNormalized | src/index.mjs:33 | `"constructor"` and `"__proto__"` reach the lookup unchanged |
| NBestAgenda.QueueElement.constructor | src/mecab-jp/nbest_generator.h:17-22 | an element keeps its node, link and cost so far, and its estimate is `fx = gx + h` |
| NBestAgenda.Comp | src/mecab-jp/nbest_generator.h:26-28 | an element ranking below another is a different element with a different estimate |
| NBestAgenda.CompStrictWeakOrder | src/mecab-jp/nbest_generator.h:24-32 | the comparator is irreflexive, asymmetric and transitive, and incomparability is transitive |
| NBestAgenda.EqualEstimatesIncomparable | src/mecab-jp/nbest_generator.h:26-28 | two elements are incomparable exactly when their `fx` are equal; neither `gx` nor insertion order breaks the tie |
| NBestAgenda.HeapRootMin | src/mecab-jp/nbest_generator.h:31-32 | in a heap, the root has the smallest `fx` |
| NBestAgenda.SiftUp | src/mecab-jp/nbest_generator.h:31-32 | moving the last element up restores the heap and keeps the same elements |
| NBestAgenda.SiftDown | src/mecab-jp/nbest_generator.h:31-32 | moving the root down restores the heap and keeps the same elements |
| NBestAgenda.Agenda.constructor | src/mecab-jp/nbest_generator.h:31-32 | a new agenda is an empty heap |
| NBestAgenda.Agenda.IsEmpty | src/mecab-jp/nbest_generator.h:31-32 | `empty()` holds exactly when no element is queued |
| NBestAgenda.Agenda.Top | src/mecab-jp/nbest_generator.h:31-32 | the top is a queued element whose `fx` is no larger than any queued element's |
| NBestAgenda.Agenda.Push | src/mecab-jp/nbest_generator.h:31-32 | push adds exactly the one element and keeps the heap |
| NBestAgenda.Agenda.Pop | src/mecab-jp/nbest_generator.h:31-32 | pop removes exactly the old top and keeps the heap; the new top's `fx` is no smaller than the old one's |

## Left out

- The native tagger is not part of this model: `node-gyp-build`, `binding.Mecab` and `this.#tagger.parse`. Its output is the argument of `Parse`.
- `existsSync` and `readdirSync` are not modelled as I/O. The file system is a map given to `Open`.
- src/binding.cc, src/mecab-jp/libmecab.cpp, src/install-scripts/main.go and rollup.config.js are not part of this model: they are foreign calls, thread-local plumbing, downloads and build configuration.
- The bodies of `NBestGenerator::set` and `next`, `FreeList`, `Lattice` and the Viterbi scoring are not part of this model. The agenda is modelled without the search that drives it.
- Element storage from the free list is not modelled. An element's fields are set once, when it is built, and are constants here. In the source they are plain mutable members of a struct taken from `freelist_` (src/mecab-jp/nbest_generator.h:33).
- Nodes are identified by a natural number. The `Node` structure is not part of this model.
- `fx = gx + h` is stated only for elements built through the model's constructor. `h` is a parameter, since the heuristic comes from the Viterbi pass.
- The comparator's behaviour on overflowing sums is not modelled. The constructor requires `gx + h` to fit in a 64-bit `long`, where the C++ code would overflow. A platform where `long` has 32 bits is not modelled either.
- Among elements with equal `fx`, the model's heap and the standard library's heap may pick different tops. Both pick an element of least `fx`, and that is all `Top` promises.
- The `features` and `surface` getters are the datatype's own fields and have no separate members.
- `get features()` (src/index.mjs:136-138) returns the token's own array, not a copy. A caller that writes through it, as in `t.features[7] = "*"`, changes what `base`, `expression`, `type`, `raw` and the other getters return afterwards. This aliasing is not modelled: a token's features never change here.
- Error messages are kept only as the error kind and the offending value, not as the message text.
- JsStrings.ToLowerChar: covers only the ASCII capitals and U+212A KELVIN SIGN. No other character lower-cases to an ASCII letter, so no other character can change whether an engine name matches `"jp"` or `"ko"`. The rest of Unicode case mapping is left out.
- JsStrings.ToLower: maps each character to one character, so it keeps the length. JavaScript lower-cases U+0130 LATIN CAPITAL LETTER I WITH DOT ABOVE to two characters (`i` followed by U+0307), which this does not reflect. Such an option normalises to neither `"jp"` nor `"ko"` either way, so what the engine check decides is unchanged.
- JsStrings.SplitLines: models the regular expression `/[\r\n]+/` directly, not a general regular-expression engine.
- Analyzer.Configure: a non-string `engine` or `dictPath` option and a non-object `opts` are represented by `None`. The object test on line 31 is not modelled beyond that.

## Findings

| source | as written | input that shows it | evidently intended | confidence | as-written member | corrected member |
|---|---|---|---|---|---|---|
| src/index.mjs:35 | `engineDicts[engine]` is a property lookup on a plain object literal. Besides `"jp"` and `"ko"`, it finds the members inherited from `Object.prototype` whose names are in lower case: `"constructor"` and `"__proto__"`. The constructor then accepts that engine, and `parse` throws on the first line it reads before `EOS` "not a supported mecab engine" from `Token` | `new MeCab({ engine: "constructor", dictPath: <a compiled dictionary> })`, then `parse` of any text whose output has a line before `EOS` | accept only the table's own keys `"jp"` and `"ko"`, and refuse anything else when the object is built | not executed | Analyzer.AcceptsEngineAsWritten, Analyzer.InheritedKeyAccepted | Analyzer.Configure, Analyzer.Open |
