# Exercise DSL lowering and serialization, modelled in Dafny

This project models the back half of the exercise-description compiler in
`Aufgabenerstellungsgrammatik`. The compiler reads a text describing
classroom exercises: true/false ("RoF"), sorting ("Umordnung"), matching
("Zuordnung"), marking ("Markierung"), cloze ("Lückentext"), correction
("Textkorrektur") and multiple choice ("Auswahl"). It writes them as JSON.

The model starts where the ANTLR parser stops. It covers these stages:

- **Parse tree as plain data.** Tokens are `(kind, text)` pairs. Grammar nodes are small records of token runs and child nodes (`Cst`).
- **Detokenizer `textJoin`** (`Detokenizer`, `Tokens`). It rebuilds display text from a token range using the adjacency spacing rule.
- **`parseIntStrict`** (`Numbers`).
- **Lowering to the IR** (`Lowering`, `Segments`, `IR`). This is `visitProg` and the seven branches of `visitTask_definition`. Marking, cloze and correction share one generic decomposition loop.
- **Conversion to the typed domain model** (`Domain`, `Convert`). This is `convertTask` and `convertProgram`, with the exact error texts the source throws.
- **Serialization** (`Json`, `DomainJson`). This is `escapeJson`, the `write*` functions and `domainToJson`. The output is a JSON tree, and one printer reproduces the source's byte layout: `"{ a, b }"` objects, tight `"{a, b}"` part objects and `", "` separators.
- **Re-indenting pretty-printer `prettyJsonDomain`** (`Pretty`, `PrintedLayout`).
  - The printer is modelled twice: as the source has it, and with escape-aware string tracking.
  - `PrintedLayout` proves the escape-aware one never fails on serialized text.
  - It exhibits an input on which the source's version fails.
- **The stages in sequence** (`Pipeline`), as `main.cpp` runs them after parsing. `Pipeline.Compile` writes with the source's re-indenter, so it can fail at the writing stage; `Pipeline.CompileIntended` is the same run with the escape-aware one.

Errors the source raises as exceptions are `Result` failures:

- a malformed point literal, from `parseIntStrict`;
- an unconvertible task, from `convertTask` and `convertProgram`;
- a closing bracket at depth 0, from `prettyJsonDomain`. The source builds a string of negative length there and throws `length_error`.

The first failure in source order is the one reported.

Behaviour of the code that a reader of its comments might not expect; the model follows the code:

- In `textJoin` the branch for punctuation and brackets writes nothing, exactly like the fall-through. Only three rules ever insert a space (`Tokens.SpaceBetween`).
- `prettyJsonDomain` decides whether a quote is escaped by looking only at the single previous character, so a string ending in an escaped backslash desynchronises it (see Findings).
- `main` calls `visitProg` outside any `try` (Aufgabenerstellungsgrammatik/src/main.cpp:98-100), so a malformed point literal ends the program through an uncaught exception. Conversion and writing failures are caught and return 1 (main.cpp:106-111, 116-121). The model reports all three as a `Pipeline.StageError`.
- `writeDomainToFile` opens, and so truncates, the output file (Aufgabenerstellungsgrammatik/src/domain/DomainJson.cpp:386) before `prettyJsonDomain` runs. When the printer throws, an empty file is left behind. The model does not represent the file.
- The segment decomposer always places the first plain run first in a sentence, even when the sentence starts with an annotation. The model reproduces this (`Segments.TrailingRunPlacedFirst`).

## Model

| member | source | states |
|---|---|---|
| Wrappers.MapAll | Aufgabenerstellungsgrammatik/src/domain/DomainConvert.cpp:43-51 | a traversal succeeds iff every element succeeds; on success it has the same length and order; otherwise it reports the first failing element's error |
| Tokens.SpaceBetween | Aufgabenerstellungsgrammatik/src/ir/IRBuilder.cpp:82-108 | a space only ever follows a wordish token or ')' and precedes a wordish token or '('; never NUMBER–NUMBER or ')' then '('; always for other wordish–wordish pairs, wordish then '(', and ')' then wordish |
| Detokenizer.DetokenizeAppend | Aufgabenerstellungsgrammatik/src/ir/IRBuilder.cpp:68-110 | joining a concatenated range is joining the first part, then the second starting from the memory the first leaves |
| Detokenizer.NewlineResets | Aufgabenerstellungsgrammatik/src/ir/IRBuilder.cpp:74-78 | a NEWLINE contributes "\n" iff keepNewlines and nothing otherwise, and the text after it is joined as if it started the range (no space right after a line break) |
| Detokenizer.AdjacentSpacing | Aufgabenerstellungsgrammatik/src/ir/IRBuilder.cpp:82-108 | between two consecutive non-newline tokens there is exactly one space when SpaceBetween holds and none otherwise |
| Detokenizer.SingleToken | Aufgabenerstellungsgrammatik/src/ir/IRBuilder.cpp:68-110 | a one-token range reads as that token's text |
| Detokenizer.DroppedNewlinesStayOut | Aufgabenerstellungsgrammatik/src/ir/IRBuilder.cpp:115-119 | with newlines dropped, the text holds no line break unless the own text of a token other than NEWLINE does |
| Detokenizer.FlattenStep | Aufgabenerstellungsgrammatik/src/ir/IRBuilder.cpp:82-110 | one token's writes spell its text, and without the inserted space they are the token text alone |
| Detokenizer.EmitsSpellText | Aufgabenerstellungsgrammatik/src/ir/IRBuilder.cpp:68-110 | the loop's writes (inserted spaces and token texts) concatenate to the joined text |
| Detokenizer.RemovingInsertedSpacesGivesPlain | Aufgabenerstellungsgrammatik/src/ir/IRBuilder.cpp:82-110 | deleting the inserted spaces from the writes leaves the plain concatenation of the token texts |
| Detokenizer.DigitRunsJoin | Aufgabenerstellungsgrammatik/src/ir/IRBuilder.cpp:86-88 | a run of NUMBER tokens is joined with no space at all |
| Detokenizer.DigitsExample | Aufgabenerstellungsgrammatik/src/ir/IRBuilder.cpp:86-88 | "1","6" reads "16" |
| Detokenizer.BracketExample | Aufgabenerstellungsgrammatik/src/ir/IRBuilder.cpp:93-100 | `ist ( rund ) zu` reads "ist (rund) zu" |
| Detokenizer.TextJoin | Aufgabenerstellungsgrammatik/src/ir/IRBuilder.cpp:58-113 | a missing start or stop token, a negative start or stop < start gives ""; otherwise the loop's output is the joined text of tokens start..stop |
| Detokenizer.JoinOne | Aufgabenerstellungsgrammatik/src/ir/IRBuilder.cpp:72-109 | a NEWLINE writes "\n" only when newlines are kept and clears the memory; any other token becomes the memory and writes its text, preceded by one space exactly when a previous token is remembered and the spacing rule holds for the pair |
| Numbers.ParseIntStrict | Aufgabenerstellungsgrammatik/src/ir/IRBuilder.cpp:16-25 | a result fits an int and the text ends in a digit; a failure names the whole literal |
| Numbers.ParseIntStrictShape | Aufgabenerstellungsgrammatik/src/ir/IRBuilder.cpp:16-25 | parsing succeeds iff the text is white space, an optional sign and one or more digits to the very end, with an int-sized value; that value is the one returned |
| Numbers.TrailingCharacterRejected | Aufgabenerstellungsgrammatik/src/ir/IRBuilder.cpp:20 | any non-digit after the number makes the parse fail |
| Numbers.SignAndSpaceExample | Aufgabenerstellungsgrammatik/src/ir/IRBuilder.cpp:16-25 | " +7" is 7 and "-12" is -12; "", "-" and "3a" are rejected |
| Numbers.NatToStringValue | Aufgabenerstellungsgrammatik/src/domain/DomainJson.cpp:60 | the decimal digits written for a number denote that number |
| Numbers.ParseFormatRoundTrip | Aufgabenerstellungsgrammatik/src/ir/IRBuilder.cpp:16-25 | parsing the decimal text the serializer writes for any int gives the int back |
| Segments.Interleave | Aufgabenerstellungsgrammatik/src/ir/IRBuilder.cpp:302-329 | n annotations and e runs give n + min(e, n) parts, starting with an annotation; the payloads are exactly the annotations in order; the plain texts are the first runs in order; annotation parts have no text; no two plain parts are adjacent |
| Segments.InterleavePlacement | Aufgabenerstellungsgrammatik/src/ir/IRBuilder.cpp:302-329 | after each annotation comes the next plain run while runs remain: annotation k sits at k + min(k, e) and run k right after annotation k |
| Segments.Decompose | Aufgabenerstellungsgrammatik/src/ir/IRBuilder.cpp:291-331 | n annotations and e plain runs give n + min(e, n+1) parts; payloads in source order; plain texts are the first runs in order; the first part is plain iff e > 0; annotation parts have empty text |
| Segments.DecomposePlacement | Aufgabenerstellungsgrammatik/src/ir/IRBuilder.cpp:291-331 | run 0 comes first and run k sits at 2k, right after annotation k - 1; annotation k sits at k + min(k + 1, e) |
| Segments.TrailingRunPlacedFirst | Aufgabenerstellungsgrammatik/src/ir/IRBuilder.cpp:291-301 | a sentence with one annotation and one run puts the run first, wherever it stood |
| Lowering.PunctuationOf | Aufgabenerstellungsgrammatik/src/ir/IRBuilder.cpp:127-131 | the first character of the punctuation token, '.' when it is missing or empty |
| Lowering.ReadSentence | Aufgabenerstellungsgrammatik/src/ir/IRBuilder.cpp:121-134 | an absent sentence is the default (empty text, '.'); otherwise the words without newlines and the punctuation character |
| Lowering.ReadSentenceIsOneLine | Aufgabenerstellungsgrammatik/src/ir/IRBuilder.cpp:115-134 | a sentence whose tokens other than NEWLINE hold no line break reads without one |
| Lowering.LowerPoints | Aufgabenerstellungsgrammatik/src/ir/IRBuilder.cpp:208-214 | no point literal gives the default partial scoring; a literal gives all-or-nothing with its parsed total, or the parse error; the mode is all-or-nothing iff a total is set |
| Lowering.LowerAnswer | Aufgabenerstellungsgrammatik/src/ir/IRBuilder.cpp:172-190 | a true answer never has a reason; a false one has a reason iff a reason sentence or reason words are given; a reason sentence is read as a sentence, bare words get '.' |
| Lowering.LowerRoFLine | Aufgabenerstellungsgrammatik/src/ir/IRBuilder.cpp:169-192 | the line keeps the question sentence and the answer as lowered on its own |
| Lowering.Present | Aufgabenerstellungsgrammatik/src/ir/IRBuilder.cpp:216-218 | the items that hold a word, each one given: all of them in order when none is missing, none when all are |
| Lowering.PresentAppend | Aufgabenerstellungsgrammatik/src/ir/IRBuilder.cpp:216-218 | the present items of a concatenation are those of the first part followed by those of the second, so their order is the input order |
| Lowering.LowerSortingLine | Aufgabenerstellungsgrammatik/src/ir/IRBuilder.cpp:201-224 | a sorting line fails iff its points do, and then with their error; otherwise question, points and present items |
| Lowering.LowerMatchingItem | Aufgabenerstellungsgrammatik/src/ir/IRBuilder.cpp:252-258 | a pair takes the first and second word, "" for each one missing |
| Lowering.LowerMatchingLine | Aufgabenerstellungsgrammatik/src/ir/IRBuilder.cpp:229-264 | a matching line fails iff its points do, and then with their error; otherwise one pair per item in order |
| Lowering.ReadMark | Aufgabenerstellungsgrammatik/src/ir/IRBuilder.cpp:304-316 | a mark succeeds iff its points parse; it has a correction iff the node gives correction words |
| Lowering.ReadBlank | Aufgabenerstellungsgrammatik/src/ir/IRBuilder.cpp:381-384 | a blank succeeds iff its points parse, keeping the solution word |
| Lowering.ReadCorrection | Aufgabenerstellungsgrammatik/src/ir/IRBuilder.cpp:448-452 | a correction succeeds iff its points parse, keeping wrong and correct words |
| Lowering.ReadRuns | Aufgabenerstellungsgrammatik/src/ir/IRBuilder.cpp:291-301 | every plain run is read without newlines, in order |
| Lowering.LowerAnnotated | Aufgabenerstellungsgrammatik/src/ir/IRBuilder.cpp:278-333 | an annotated sentence fails iff some annotation's points fail, and then with the first failing annotation's error; its payloads are the annotations read in order, its plain texts the leading runs, its punctuation the node's |
| Lowering.PlainBodySentence | Aufgabenerstellungsgrammatik/src/ir/IRBuilder.cpp:337-344 | a plain sentence in a body is one plain part holding its words |
| Lowering.LowerBody | Aufgabenerstellungsgrammatik/src/ir/IRBuilder.cpp:277-345 | all annotated sentences first in order, then every plain sentence in order; an absent body is empty; a failure is the first failing annotated sentence's error |
| Lowering.LowerComposite | Aufgabenerstellungsgrammatik/src/ir/IRBuilder.cpp:269-349 | a marking/cloze/correction task is its question and its body, failing iff the body does and then with the body's error |
| Lowering.ReadCorrectChoice | Aufgabenerstellungsgrammatik/src/ir/IRBuilder.cpp:496-502 | a correct option is marked correct and carries its parsed points; it fails iff the literal is malformed, naming that literal |
| Lowering.FalseOptions | Aufgabenerstellungsgrammatik/src/ir/IRBuilder.cpp:505-517 | one incorrect option per false choice in order; option i takes the i-th negative literal when there is one, else 0; a failure is the first malformed literal's error |
| Lowering.LowerChoiceLine | Aufgabenerstellungsgrammatik/src/ir/IRBuilder.cpp:488-523 | the correct options come first, then exactly the false options; an option is correct iff it is among the first |n.correct|; with false choices the line succeeds iff every correct option and the false options do; a failing correct option makes the first such option's error the line's error, and otherwise a failure in the false options is the line's error |
| Lowering.LowerTask | Aufgabenerstellungsgrammatik/src/ir/IRBuilder.cpp:152-527 | the task keeps the header, is tagged by its kind ("Unknown" for none), holds data only under its own tag, and can only fail on a point literal; a RoF task holds its lines each lowered |
| Lowering.SortingTaskData | Aufgabenerstellungsgrammatik/src/ir/IRBuilder.cpp:201-224 | a sorting task succeeds iff all its lines lower, holds them in order, and otherwise fails with the first line's error |
| Lowering.MatchingTaskData | Aufgabenerstellungsgrammatik/src/ir/IRBuilder.cpp:229-264 | a matching task succeeds iff all its lines lower, holds them in order, and otherwise fails with the first line's error |
| Lowering.MarkingTaskData | Aufgabenerstellungsgrammatik/src/ir/IRBuilder.cpp:269-349 | a marking task succeeds iff its question and body lower, holds them, and otherwise fails with their error |
| Lowering.ClozeTaskData | Aufgabenerstellungsgrammatik/src/ir/IRBuilder.cpp:354-416 | a cloze task succeeds iff its question and body lower, holds them, and otherwise fails with their error |
| Lowering.CorrectionTaskData | Aufgabenerstellungsgrammatik/src/ir/IRBuilder.cpp:421-483 | a correction task succeeds iff its question and body lower, holds them, and otherwise fails with their error |
| Lowering.ChoiceTaskData | Aufgabenerstellungsgrammatik/src/ir/IRBuilder.cpp:488-523 | a choice task succeeds iff all its lines lower, holds them in order, and otherwise fails with the first line's error |
| Lowering.LowerProgram | Aufgabenerstellungsgrammatik/src/ir/IRBuilder.cpp:137-149 | no task list is an empty program; otherwise task i is definition i lowered, and the run fails iff some task fails, with the first failing task's error |
| Domain.TaskKind | Aufgabenerstellungsgrammatik/src/domain/Domain.h:63-75 | never "Unknown"; "Lueckentext" exactly for cloze; the IR tag for every other variant |
| Domain.ToIR | Aufgabenerstellungsgrammatik/src/domain/Domain.h:14-57 | a domain task as a tagged IR record, keeping its header |
| Convert.ConvertTask | Aufgabenerstellungsgrammatik/src/domain/DomainConvert.cpp:6-40 | an unrecognized tag is an "Unknown task type" error; a recognized one succeeds iff its payload is present, keeping the header, and both cloze spellings map to cloze |
| Convert.ConvertOne | Aufgabenerstellungsgrammatik/src/domain/DomainConvert.cpp:45-49 | an "Unknown" task is rejected with its header before dispatch |
| Convert.ConvertProgram | Aufgabenerstellungsgrammatik/src/domain/DomainConvert.cpp:42-52 | succeeds iff every task converts, keeping length and order; otherwise the first failing task's error |
| Convert.FirstFailureReported | Aufgabenerstellungsgrammatik/src/domain/DomainConvert.cpp:43-51 | when every task before k converts and task k does not, the program fails with task k's error |
| Convert.ConvertInvertsToIR | Aufgabenerstellungsgrammatik/src/domain/DomainConvert.cpp:6-40 | converting a domain task's IR form gives the task back |
| Convert.WellTaggedTaskConverts | Aufgabenerstellungsgrammatik/src/domain/DomainConvert.cpp:6-40 | a lowered task with a known tag converts, and nothing is lost |
| Convert.LoweredTagIsKnown | Aufgabenerstellungsgrammatik/src/ir/IRBuilder.cpp:152-527 | every lowered task is well tagged with one of the seven tags or "Unknown" |
| Convert.LoweredProgramConverts | Aufgabenerstellungsgrammatik/src/domain/DomainConvert.cpp:42-52 | a lowered program converts iff it has no "Unknown" task, and then every task converts without loss |
| Json.KeyNamesAreLetters | Aufgabenerstellungsgrammatik/src/domain/DomainJson.cpp:35-38 | every field name is non-empty ASCII letters, so writing it unescaped is safe |
| Json.EscapeChar | Aufgabenerstellungsgrammatik/src/domain/DomainJson.cpp:16-27 | quote, backslash, LF, CR and TAB become two-character escapes; every other character is copied |
| Json.Escape | Aufgabenerstellungsgrammatik/src/domain/DomainJson.cpp:16-27 | the output has no raw LF, CR or TAB, and a string with nothing to escape is copied unchanged |
| Json.Unescape | Aufgabenerstellungsgrammatik/src/domain/DomainJson.cpp:16-27 | reading a string body back never yields more characters than it had |
| Json.UnescapeEscape | Aufgabenerstellungsgrammatik/src/domain/DomainJson.cpp:16-27 | reading back what escapeJson writes gives the original string |
| Json.Join | Aufgabenerstellungsgrammatik/src/domain/DomainJson.cpp:90-93 | no elements is "", one element is itself |
| Json.JoinSnoc | Aufgabenerstellungsgrammatik/src/domain/DomainJson.cpp:90-93 | appending an element appends ", " and the element, so the separator goes between elements only |
| Json.PrintIsOneLine | Aufgabenerstellungsgrammatik/src/domain/DomainJson.cpp:16-27 | the compact JSON text never holds a raw line feed |
| DomainJson.SentenceJson | Aufgabenerstellungsgrammatik/src/domain/DomainJson.cpp:46-52 | a spaced object: "text" with the sentence text, then "punctuation" with its one character |
| DomainJson.PointsJson | Aufgabenerstellungsgrammatik/src/domain/DomainJson.cpp:54-63 | "scoringMode" always first; "pointsIfAllCorrect" second iff a total is set |
| DomainJson.AnswerJson | Aufgabenerstellungsgrammatik/src/domain/DomainJson.cpp:66-73 | "isTrue" always; "reason" second iff present |
| DomainJson.RoFLineJson | Aufgabenerstellungsgrammatik/src/domain/DomainJson.cpp:75-81 | a spaced object: "question" with the question sentence, then "answer" with the answer object |
| DomainJson.ArrayOf | Aufgabenerstellungsgrammatik/src/domain/DomainJson.cpp:89-94 | one element per item, in sequence order |
| DomainJson.SortingLineJson | Aufgabenerstellungsgrammatik/src/domain/DomainJson.cpp:84-95 | a spaced object: "question" with the sentence, "points" with the points object, "items" with one string per item in order |
| DomainJson.MatchingQuestionJson | Aufgabenerstellungsgrammatik/src/domain/DomainJson.cpp:98-110 | a spaced object: "prefix", "slotA", "middle", "slotB" with the question's texts, then "punctuation" with its character |
| DomainJson.MatchingItemJson | Aufgabenerstellungsgrammatik/src/domain/DomainJson.cpp:118-124 | a spaced object: "left" then "right", with the pair's two texts |
| DomainJson.MatchingLineJson | Aufgabenerstellungsgrammatik/src/domain/DomainJson.cpp:112-127 | a spaced object: "question" with the matching question, "points" with the points object, "pairs" with one object per pair in order |
| DomainJson.BlankJson | Aufgabenerstellungsgrammatik/src/domain/DomainJson.cpp:143-148 | a spaced object: "solution" with the solution text, then "points" with the number |
| DomainJson.MarkJson | Aufgabenerstellungsgrammatik/src/domain/DomainJson.cpp:181-190 | a spaced object: "markedText" and "points" with their values, then "correction" with its text iff present |
| DomainJson.CorrectionJson | Aufgabenerstellungsgrammatik/src/domain/DomainJson.cpp:223-230 | a spaced object: "wrong", "correct" with the two texts, then "points" with the number |
| DomainJson.PartJson | Aufgabenerstellungsgrammatik/src/domain/DomainJson.cpp:136-150 | a tight object: "text" first iff the text is non-empty, the payload key last iff the payload is present, nothing else |
| DomainJson.AnnotatedSentenceJson | Aufgabenerstellungsgrammatik/src/domain/DomainJson.cpp:130-154 | a spaced object: "punctuation" with the character, then "parts" with each part's tight object in order |
| DomainJson.AnnotatedTaskJson | Aufgabenerstellungsgrammatik/src/domain/DomainJson.cpp:156-166 | a spaced object: "question" with the question sentence, then "sentences" with each sentence's object in order |
| DomainJson.ChoiceOptionJson | Aufgabenerstellungsgrammatik/src/domain/DomainJson.cpp:250-256 | a spaced object: "text" with the option text, "points" with the number, "isCorrect" with the flag |
| DomainJson.ChoiceLineJson | Aufgabenerstellungsgrammatik/src/domain/DomainJson.cpp:258-267 | a spaced object: "question" with the question sentence, then "options" with one object per option in order |
| DomainJson.TaskBody | Aufgabenerstellungsgrammatik/src/domain/DomainJson.cpp:291-330 | RoF, sorting and matching write "lines" with element i the JSON of line i; marking, cloze and correction write "task" holding "question" and "sentences", as the task's annotated JSON with its payload key; choice writes "task" holding only "lines", element i the JSON of choice line i |
| DomainJson.TaskJson | Aufgabenerstellungsgrammatik/src/domain/DomainJson.cpp:281-334 | "type" = taskKind first, "header" second, then the body |
| DomainJson.ProgramJson | Aufgabenerstellungsgrammatik/src/domain/DomainJson.cpp:336-345 | "type": "Program", then "tasks" with one object per task in order |
| DomainJson.ReasonKeyIffPresent | Aufgabenerstellungsgrammatik/src/domain/DomainJson.cpp:66-73 | "reason" appears iff the answer has a reason |
| DomainJson.TotalKeyIffPresent | Aufgabenerstellungsgrammatik/src/domain/DomainJson.cpp:54-63 | "scoringMode" always appears; "pointsIfAllCorrect" iff a total is set |
| DomainJson.MarkCorrectionKeyIffPresent | Aufgabenerstellungsgrammatik/src/domain/DomainJson.cpp:185-188 | a mark's "correction" appears iff it has one |
| DomainJson.PartKeysIffPresent | Aufgabenerstellungsgrammatik/src/domain/DomainJson.cpp:136-150 | a part has "text" iff its text is non-empty and its payload key iff it has a payload |
| DomainJson.TaskTexts | Aufgabenerstellungsgrammatik/src/domain/DomainJson.cpp:339-342 | one text per task, in order |
| DomainJson.ProgramText | Aufgabenerstellungsgrammatik/src/domain/DomainJson.cpp:336-345 | the program text is the "type"/"tasks" frame around the task texts joined by ", " |
| DomainJson.TasksArrayText | Aufgabenerstellungsgrammatik/src/domain/DomainJson.cpp:338-343 | the tasks array is the task texts joined by ", " inside brackets |
| DomainJson.TaskTextStart | Aufgabenerstellungsgrammatik/src/domain/DomainJson.cpp:285-289 | every task text starts with the quoted kind and the quoted header, then its body field |
| Pretty.Step | Aufgabenerstellungsgrammatik/src/domain/DomainJson.cpp:353-374 | one character: it fails iff it is a closer outside a string at depth 0; the character itself is always written; inside a string it is copied; a quote flips the string state unless escaped; openers and closers move the depth by one |
| Pretty.LayoutAppend | Aufgabenerstellungsgrammatik/src/domain/DomainJson.cpp:352-375 | re-indenting a concatenation is re-indenting the first part, then the second from the state the first leaves |
| Pretty.LayoutKeepsInput | Aufgabenerstellungsgrammatik/src/domain/DomainJson.cpp:352-375 | the printer only inserts: the input characters of its writes are the input, in order |
| Pretty.InsideStringCopied | Aufgabenerstellungsgrammatik/src/domain/DomainJson.cpp:359-374 | braces, brackets and commas inside a string are copied with nothing inserted |
| Pretty.Advance | Aufgabenerstellungsgrammatik/src/domain/DomainJson.cpp:353-374 | one iteration of the source's loop does what one step of the model does |
| Pretty.PrettyJsonDomain | Aufgabenerstellungsgrammatik/src/domain/DomainJson.cpp:347-378 | the source's loop computes the as-written re-indenter |
| Pretty.AsWrittenState | Aufgabenerstellungsgrammatik/src/domain/DomainJson.cpp:355-368 | after any prefix the source's tracker is in a string iff an odd number of quotes toggled it, and its indent is the opens minus closes seen outside strings |
| Pretty.AsWrittenFailsIffUnderflow | Aufgabenerstellungsgrammatik/src/domain/DomainJson.cpp:364-367 | the source's printer fails iff some prefix closes more than it opens outside strings |
| Pretty.SameWithoutBackslash | Aufgabenerstellungsgrammatik/src/domain/DomainJson.cpp:355-358 | on text without a backslash the source's quote tracking and the escape-aware one behave identically |
| Pretty.AsWrittenOutcome | Aufgabenerstellungsgrammatik/src/domain/DomainJson.cpp:347-378 | the source's printer fails iff a prefix underflows, otherwise only inserts, and matches the escape-aware printer on text without a backslash |
| Pretty.DepthNonNegative | Aufgabenerstellungsgrammatik/src/domain/DomainJson.cpp:364-367 | on success no prefix ever went below depth 0 |
| PrintedLayout.EscapeGoes | Aufgabenerstellungsgrammatik/src/domain/DomainJson.cpp:16-27 | the escape-aware tracker stays inside the string through any escaped text |
| PrintedLayout.QuoteGoes | Aufgabenerstellungsgrammatik/src/domain/DomainJson.cpp:29-33 | a written string literal is read as exactly one string |
| PrintedLayout.PrintGoes | Aufgabenerstellungsgrammatik/src/domain/DomainJson.cpp:29-345 | every serialized value leaves the escape-aware tracker outside strings at the depth it started |
| PrintedLayout.PrettyOfPrinted | Aufgabenerstellungsgrammatik/src/domain/DomainJson.cpp:347-378 | escape-aware re-indenting of serialized text never fails and only inserts line breaks and indentation |
| PrintedLayout.BackslashSampleDesyncs | Aufgabenerstellungsgrammatik/src/domain/DomainJson.cpp:357 | on `["\\", "]]"]` the source's printer fails and the escape-aware one succeeds |
| Pipeline.Written | Aufgabenerstellungsgrammatik/src/domain/DomainJson.cpp:389 | the written text is domainToJson re-indented as the source does it: it fails iff some prefix underflows by the source's quote tracking, otherwise only line breaks and indentation are inserted; without a backslash it is the escape-aware text |
| Pipeline.WrittenIntended | Aufgabenerstellungsgrammatik/src/domain/DomainJson.cpp:389 | with escape-aware tracking the written text always exists and is domainToJson with line breaks and indentation inserted |
| Pipeline.Compile | Aufgabenerstellungsgrammatik/src/main.cpp:98-121 | a malformed point literal stops the run at lowering, an unconvertible task at conversion, and a re-indenter underflow at writing, each with its own error; otherwise the written text is the result |
| Pipeline.CompileIntended | Aufgabenerstellungsgrammatik/src/main.cpp:98-121 | with the escape-aware printer a run fails only at lowering or conversion, with that stage's error |
| Pipeline.CompileDiffersOnlyOnBackslash | Aufgabenerstellungsgrammatik/src/domain/DomainJson.cpp:357 | the source's run and the escape-aware run agree unless the serialized program holds a backslash |
| Pipeline.CompileFailsOnlyOnUnknown | Aufgabenerstellungsgrammatik/src/domain/DomainConvert.cpp:45-49 | once the points parse, the run succeeds iff no task lacks a kind keyword and the source's re-indenter does not underflow on the serialized text |
| Pipeline.CompileIntendedFailsOnlyOnUnknown | Aufgabenerstellungsgrammatik/src/domain/DomainConvert.cpp:45-49 | with the escape-aware printer, once the points parse only a task with no kind keyword stops the run |
| Pipeline.FirstUnknownIsReported | Aufgabenerstellungsgrammatik/src/domain/DomainConvert.cpp:45-49 | the first "Unknown" task is the one reported, with its header |
| Pipeline.TrueAnswerHasNoReasonKey | Aufgabenerstellungsgrammatik/src/domain/DomainJson.cpp:66-73 | a true answer from the parse tree is written without "reason" |

## Left out

- Reading files, command-line handling, the ANTLR lexer and parser, `dumpTokens` and exit codes in `main.cpp` are I/O and a foreign runtime. The model takes the parse tree as data.
- `writeDomainToFile` (directory creation and the file stream) is I/O. `Pipeline.Written` is the text it writes, or its failure.
- `textJoin` skips null tokens from the stream (`if (!t) continue`). The token stream is a sequence here, so no token is missing.
- Lowering.PlainBodySentence: the source indexes the punctuation token of a plain body sentence without a null check. The model reads it through `PunctuationOf`, falling back to '.'; the grammar always supplies the token.
- Lowering.ReadMark, Lowering.ReadBlank, Lowering.ReadCorrection: the IR's default of 1 point for a blank, mark or correction is never observable, because lowering always overwrites it with the parsed literal. So the default is not modelled. The matching question's default punctuation '!' is not modelled either: lowering always sets it from the node.
- Pretty.Step: the source computes the padding width as `indent * 2` in a 32-bit `int` (DomainJson.cpp:362, 367, 370), which overflows once 2^30 brackets are open. The model's depth and widths are unbounded.
- Characters are Unicode code points, while the source works on UTF-8 bytes. The tag "Lückentext" and escaping agree either way: every escaped character is ASCII.
- `escapeJson` leaves the other control characters raw, which section 7 of RFC 8259 forbids. The model reproduces this; `Json.Escape` promises only what the source does.
- `std::stoi` is modelled for the forms point literals can take: ASCII white space, sign and decimal digits, within the 32-bit `int` range. Its locale handling is not modelled.

## Findings

| source | as written | input that shows it | evidently intended | confidence | as-written member | corrected member |
|---|---|---|---|---|---|---|
| Aufgabenerstellungsgrammatik/src/domain/DomainJson.cpp:357 | a quote toggles the in-string flag unless the previous character is a backslash, so the closing quote of a string that ends in an escaped backslash (`"\\"`) is taken as escaped | on the text `["\\", "]]"]` alone, from the printer's start state (no whole program is exhibited): the tracker stays in the string over `, "`, leaves it at the quote before `]]`, and the second `]` closes below depth 0, so the printer throws `length_error` | a quote ends a string unless it is itself escaped, i.e. preceded by an odd run of backslashes inside the string | not executed | PrintedLayout.BackslashSampleDesyncs | PrintedLayout.PrettyOfPrinted |
