# Marine engine fault diagnosis: the query pipeline, modelled in Dafny

This project models the diagnosis core of a marine-engine troubleshooting
assistant:

- **Input preprocessing** (`services/input_preprocessing.py`). A user query
  is normalised: lowercased, units split from numbers, whitespace
  collapsed, and the contractions "can't", "won't" and "isn't" spelled
  out. It is then tokenised and spell-corrected word by word, with domain
  terms, short words and numbers protected. Abbreviations are expanded,
  stop words dropped (negations and comparatives are kept), tokens
  lemmatised, and negations joined to the next word ("not_").
- **The clarification dialogue** (`add_missing_context` and `process_query`).
  Engine, component, problem, action and vague words are detected as
  substrings. The assistant then asks which engine, which component or
  which problem is meant, or passes on the enhanced query. A pending
  question in the conversation state decides how the next answer is read.
- **The rule engine** (`services/rule_engine.py`). A fault scores the
  share of its symptom words that occur in the query. Faults with a
  positive score are returned, best first.
- **The semantic engine** (`services/neural_engine.py`). One embedding is
  kept per fault name, the last fault with that name winning. Faults whose
  similarity to the query exceeds 0.3 are returned, best first.
- **The hybrid engine** (`services/hybrid_engine.py`). It decides whether
  the query is about equipment the fault database does not cover, and
  with which confidence penalty. It scales the results by that penalty
  and merges the two engines' results by fault name. A fault both engines
  found gets a 20% boost. At most five results are returned, best first.
- **The fault reader** (`utils/yaml_parser.py`). It keeps the subsystem
  paths from the database, last row winning. It splits fault files at
  `## Fault <n>` headers, filters file names with glob patterns, collects
  tagged fault documents, and looks one fault up by name.

Everything outside the program's own logic is a parameter:
- the tokenizer, the stop-word list, the lemmatizer and the spelling
  dictionary (`Toolkit`);
- the sentence encoder and the cosine similarity;
- `yaml.safe_load`, the directory listing, the path test and file reading
  (`FileSystem`);
- the rows of the path table.

Python dictionaries keep insertion order, and `list.sort(reverse=True)` is
stable. The model keeps both (`Dicts.Dict`, `Ranking.SortDesc`), because
the order of ties and of iteration shows in the results. An exception that
the source lets escape is a `Failure` of a `Result`. One that the source
catches is modelled where it is caught.

Modules: `Wrappers` (Option, Result), `Text` (lowercasing, substring
search, `str.replace`, splitting and joining), `Dicts`, `Ranking`, `Faults`
(fault documents and match results), `InputPreprocessing`, `Clarification`,
`RuleEngine`, `NeuralEngine`, `HybridEngine`, `YamlParser`.

## Model

| member | source | states |
|---|---|---|
| InputPreprocessing.SpellCorrectWord | services/input_preprocessing.py:97-116 | A protected word (domain term, at most two characters, or containing a digit) is returned unchanged. An unprotected contraction without apostrophe is spelled out. Any other word becomes the first dictionary suggestion when it is within edit distance 2, and stays as it is when there is no suggestion or the first is further away. |
| InputPreprocessing.SpellCorrectUsesLookupOnlyWhenNeeded | services/input_preprocessing.py:97-116 | The spelling dictionary decides nothing for protected words and the four contractions. Two dictionaries that agree on the word, or that both have no close suggestion, give the same correction. |
| InputPreprocessing.ContractionsSpelledOut | services/input_preprocessing.py:104-111 | "wont", "cant", "isnt" and "doesnt" become "will not", "cannot", "is not" and "does not", whatever the dictionary says. |
| InputPreprocessing.NormalizeFacts | services/input_preprocessing.py:120-129 | The normalised text has no upper-case letter, no whitespace other than single spaces, no digit directly followed by a letter, and no "can't", "won't" or "isn't" left. |
| InputPreprocessing.NormalizeIdempotent | services/input_preprocessing.py:120-129 | Normalising a normalised text gives it back unchanged. |
| InputPreprocessing.UnitSplitExamples | services/input_preprocessing.py:122-123 | "10bar" becomes "10 bar", and "10-15bar" becomes "10-15 bar". |
| Text.UnitSplitNoDigitLetter | services/input_preprocessing.py:122 | After the unit substitution, no digit is directly followed by a letter. |
| Text.RangeSplitIdle | services/input_preprocessing.py:122-123 | The range substitution finds nothing to change once the unit substitution has run. |
| Text.ReplaceAllNoNewOccurrence | services/input_preprocessing.py:127-129 | After `str.replace`, a string that cannot overlap the replacement does not occur, provided it is the replaced pattern or did not occur before. |
| InputPreprocessing.ExpandLeavesNoAbbreviation | services/input_preprocessing.py:135-141 | After expansion no token is an abbreviation, so expanding twice is the same as expanding once. |
| InputPreprocessing.ExpandAppend | services/input_preprocessing.py:135-141 | Expansion works token by token: expanding a concatenation concatenates the expansions. |
| InputPreprocessing.DropStopwordsKeepsImportant | services/input_preprocessing.py:143-147 | A token survives exactly when it is not a stop word or is one of the kept words ("not", "no", "up", "down" ...). Every kept word survives as often as it occurred. |
| InputPreprocessing.JoinNegationsFacts | services/input_preprocessing.py:151-155 | The processed query has no "not ", "no " or "n't " left, and joining does not change its length. |
| InputPreprocessing.JoinNegationsWord | services/input_preprocessing.py:153 | "not " before a word becomes "not_" joined to that word. |
| InputPreprocessing.PreprocessUserQuery | services/input_preprocessing.py:118-157 | Returns the normalised text and the processed query computed from its tokens. The expansion loop's invariant is the expansion of the tokens seen so far. |
| Clarification.GetEngineType | services/input_preprocessing.py:180-188 | "main engine" exactly when "main" or "me" occurs in the lower-cased text. "auxiliary engine" exactly when neither occurs and an auxiliary term does. "unspecified" exactly when none of these occurs but "engine" does. None exactly when none of them occurs. |
| Clarification.EngineMentionNamesEngine | services/input_preprocessing.py:182-198 | A text that contains an engine word always names the main or the auxiliary engine, never "unspecified". |
| Clarification.AddMissingContext | services/input_preprocessing.py:160-311 | Every result is either a question or a final query. A question names what it awaits ("engine", "component" or "problem"), its message and the original query. |
| Clarification.FreshRules | services/input_preprocessing.py:260-311 | With no pending question: the engine question is asked exactly when the query is vague with no engine or component, names only "engine", or has a component, problem or action without an engine. The component question is asked exactly when an engine is named with only vague words, and it remembers a definite engine. Anything else is final, unchanged. |
| Clarification.EngineAnswer | services/input_preprocessing.py:203-223 | An engine answer picks the engine it names, or "main engine". The component question follows exactly when the original query is vague or names neither component nor problem; otherwise the final query is "<engine> <original query>". |
| Clarification.ComponentAnswer | services/input_preprocessing.py:225-248 | A component answer leads to the problem question exactly when it is vague and names no component, and the answer is remembered. Otherwise the final query is "<engine> <answer>", with "engine" when no engine was remembered. |
| Clarification.DialogueProgresses | services/input_preprocessing.py:201-258 | Each answer to a pending question moves the dialogue strictly forward (engine, component, problem, final), and a problem answer always ends it. |
| Clarification.SomethingMentionsMainEngine | services/input_preprocessing.py:166-198 | "something" contains "me", so it counts as naming the main engine and leads to the component question, not the engine question. |
| Clarification.ProcessQuery | services/input_preprocessing.py:313-328 | The record carries the user query, the normalised and processed queries, and the clarification result for the processed query; it has an enhanced query exactly when no clarification is needed. |
| Clarification.ComponentLostThroughRecord | services/input_preprocessing.py:240 | The record has no field for the component that the problem question remembered. So the next answer, read through a state rebuilt from the record, gives "<engine>  <answer>" with the component missing. |
| RuleEngine.ScoreBounds | services/rule_engine.py:35-40 | The match score lies between 0 and 1. |
| RuleEngine.ScoreIsOne | services/rule_engine.py:35-40 | The score is 1 exactly when there are symptom words and every one of them is in the query. |
| RuleEngine.ScorePositive | services/rule_engine.py:35-40 | The score is positive exactly when the query shares a word with the symptoms. |
| RuleEngine.SymptomWordsMembers | services/rule_engine.py:29-32 | The symptom words are exactly the whitespace-separated words of the lowercased symptoms. |
| RuleEngine.CalculateMatchScore | services/rule_engine.py:27-40 | The loop over symptoms computes the specified score. It fails exactly where the source raises: no `fault` mapping, or no symptoms list. |
| RuleEngine.CollectFails | services/rule_engine.py:13-21 | Processing raises exactly when some fault document lacks the keys the score and the result need. |
| RuleEngine.CollectResults | services/rule_engine.py:13-21 | Every result comes from a fault with a positive score. Every fault with a positive score gives a result. |
| RuleEngine.CollectOrder | services/rule_engine.py:13-21 | The results come in corpus order, one per fault with a positive score: the j-th result is yielded by the j-th such fault. |
| RuleEngine.RankCorrect | services/rule_engine.py:24 | The results are sorted by confidence, best first, and are a permutation of the collected results. Ties keep their collection order. |
| RuleEngine.ReturnedIffSharedWord | services/rule_engine.py:9-25 | A fault is returned exactly when the query shares a word with its symptoms. |
| RuleEngine.RankConfidences | services/rule_engine.py:16-21 | Every result has a confidence in (0, 1] and the source "rule_engine". |
| RuleEngine.Process | services/rule_engine.py:7-25 | The method computes the specified ranking of a query against the fault documents. |
| NeuralEngine.BuildTableFails | services/neural_engine.py:18-38 | Precomputing raises exactly when some document's `fault` is not a mapping or has no name. |
| NeuralEngine.BuildTableKeys | services/neural_engine.py:18-38 | The table holds exactly the names of the fault documents. |
| NeuralEngine.BuildTableLastWins | services/neural_engine.py:35-38 | A name's entry belongs to the last document with that name. |
| NeuralEngine.BuildTableUntouched | services/neural_engine.py:35-38 | Entries whose name no new document carries are kept. |
| NeuralEngine.SuffixedIsJoin | services/neural_engine.py:25-30 | The embedding text is the name and the symptoms, joined by spaces, with a trailing space. |
| NeuralEngine.Engine.PrecomputeEmbeddings | services/neural_engine.py:12-38 | On success the table is the one built from all documents. On an exception the table keeps every entry added before the failing document. |
| NeuralEngine.RankResults | services/neural_engine.py:44-57 | Each result is a table entry whose similarity exceeds 0.3, with that similarity as confidence. It carries the entry's causes, source "neural_engine", and the source file and fault number, or "unknown" and 0. Every entry above 0.3 is returned. |
| NeuralEngine.RankSortedDistinct | services/neural_engine.py:46-60 | The results are sorted by confidence, best first, one per fault name. |
| NeuralEngine.Engine.Process | services/neural_engine.py:40-61 | The method returns the specified ranking for the query's embedding. |
| HybridEngine.SpecialTermsMembers | services/hybrid_engine.py:88-130 | The special terms of a query are the equipment terms and non-engine indicators it contains, except "alarm". |
| HybridEngine.CountRelevantBound | services/hybrid_engine.py:152-172 | At most every checked result is relevant. None is relevant exactly when no checked result mentions a special term. |
| HybridEngine.NoResultsForTerms | services/hybrid_engine.py:140-149 | Special terms with no result at all: unknown, with penalty 0, and the terms are reported. |
| HybridEngine.SeawaterPumpLeaking | services/hybrid_engine.py:88-149 | "seawater pump leaking" with no results is unknown, with penalty 0; "seawater" and "leak" are reported. |
| HybridEngine.PenaltyLadder | services/hybrid_engine.py:140-202 | Of the first min(10, n) results: none relevant gives penalty 0.1; under a fifth gives 0.3; under a half gives 0.6. At least half relevant falls through to the low-confidence check. |
| HybridEngine.RatioFacts | services/hybrid_engine.py:174-195 | The relevance-ratio thresholds as integer comparisons: 0, below 1/5 and below 1/2. |
| HybridEngine.StrongResultIsKnown | services/hybrid_engine.py:204-232 | One result with normalised confidence 0.4 or more prevents the low-confidence verdict. |
| HybridEngine.DetectionShape | services/hybrid_engine.py:80-232 | An unknown verdict has a penalty in [0, 1]. It reports no terms exactly when it is the low-confidence verdict, with penalty 1, where every normalised confidence is below 0.4. Otherwise it reports the query's special terms. |
| HybridEngine.DetectUnknownQuery | services/hybrid_engine.py:80-232 | The method, with its scan and count loops, computes the specified verdict. |
| HybridEngine.BoostBounds | services/hybrid_engine.py:299-306 | The agreement boost never lowers a confidence in [0, 1] and never exceeds 1. |
| HybridEngine.NormalizeRuleBounds | services/hybrid_engine.py:249-258 | A rule confidence becomes its twentieth when that is below 1, and 1 otherwise, so a non-negative confidence lands in [0, 1]. The result is tagged "rule_engine_hybrid" and keeps every other field. |
| HybridEngine.MergeAgreement | services/hybrid_engine.py:289-309 | A fault already present keeps its place. Its entry becomes the better of the two results, boosted, with source "both_engines"; ties keep the rule result. |
| HybridEngine.MergeNew | services/hybrid_engine.py:285-287 | A fault not yet present is added at the end, unchanged. |
| HybridEngine.AddRulesLastWins | services/hybrid_engine.py:277-279 | Among rule results with the same name, the last one wins. |
| HybridEngine.AddNeuralKeys | services/hybrid_engine.py:282-309 | After the neural pass the merged faults are exactly the rule faults and the neural faults. |
| HybridEngine.AddNeuralUntouched | services/hybrid_engine.py:282-309 | A rule fault the semantic engine did not find keeps its entry. |
| HybridEngine.AgreementBoosted | services/hybrid_engine.py:274-309 | A fault both engines found is merged with source "both_engines", at least as confident as either normalised result and at most 1. |
| HybridEngine.CombineShape | services/hybrid_engine.py:311-320 | The combined results are at most five, sorted by confidence, best first, one per fault name. |
| HybridEngine.CombineEntries | services/hybrid_engine.py:311-320 | Each combined result is the merged entry stored under its fault name. |
| HybridEngine.CombineKeepsBest | services/hybrid_engine.py:311-320 | No merged entry left out is more confident than one that is kept, and results of equal confidence keep their merged order (Python's stable sort). |
| HybridEngine.CombineNames | services/hybrid_engine.py:274-320 | Every combined result names a fault one of the engines found. |
| HybridEngine.CombineNonEmpty | services/hybrid_engine.py:274-320 | If either engine found something, the combination is not empty. |
| HybridEngine.CombineResults | services/hybrid_engine.py:234-320 | The method, with its normalising and merging loops, computes the specified combination. |
| HybridEngine.HybridShape | services/hybrid_engine.py:46-78 | `process` wraps its results exactly when the query is judged unknown, with that verdict's message and terms and the fixed suggestion. In both forms the results are at most five, best first, one per fault name. |
| HybridEngine.ApplyPenalty | services/hybrid_engine.py:49-59 | Every confidence in the array is multiplied by the penalty, in place. |
| HybridEngine.Process | services/hybrid_engine.py:10-78 | `process`, with each engine called on the query alone (an engine that raises counts as no results), computes the specified output. |
| HybridEngine.AsWrittenReturnsNothing | services/hybrid_engine.py:26-44 | As written, both engine calls raise and are caught, so `process` returns no results for any query. |
| HybridEngine.CorrectedReturnsFaults | services/hybrid_engine.py:26-44 | With the engines called on the query alone, any engine result makes `process` return results. |
| YamlParser.LoadPathsKeys | utils/yaml_parser.py:14-18 | The path table holds exactly the subsystems of the rows. |
| YamlParser.LoadPathsLastWins | utils/yaml_parser.py:17-18 | A subsystem's path is the one of its last row. |
| YamlParser.YamlReader.LoadPathsFromDb | utils/yaml_parser.py:14-18 | The reader's table becomes the old table updated with the rows, in order. |
| YamlParser.SectionsRoundTrip | utils/yaml_parser.py:84-85 | Splitting at `## Fault <digits>` headers loses nothing: the pieces interleaved with the headers give the text back. |
| YamlParser.SingleSectionIffNoHeader | utils/yaml_parser.py:32-33 | The split gives a single piece exactly when the text has no header. |
| YamlParser.NoMarkerSingleSection | utils/yaml_parser.py:84-85 | A text without "## Fault" splits into a single piece. |
| YamlParser.PreparedStartsWithFault | utils/yaml_parser.py:89-90 | A prepared section, stripped, starts with "fault:". |
| YamlParser.StarFreeIsPrefix | utils/yaml_parser.py:69-71 | A plain pattern (no regular-expression character other than `.` and `*`) without `*` matches exactly the file names that start with it. |
| YamlParser.FilterPatternsFacts | utils/yaml_parser.py:66-73 | The filter raises `re.error` exactly when some pattern's expression fails to compile against a listed file. Otherwise the filtered files have no duplicates and are exactly the listed files some pattern matches. |
| YamlParser.FilesToProcessFacts | utils/yaml_parser.py:64-75 | Plain patterns never raise. The files processed are listed files, without duplicates. |
| YamlParser.FilterFiles | utils/yaml_parser.py:66-73 | The two loops compute the specified filter, and leave both loops on the first `re.error`. |
| YamlParser.SectionNumbering | utils/yaml_parser.py:87-97 | A section with a `fault` key is kept with number k + 1. The numbers of the kept sections increase. |
| YamlParser.AllFaultsTagged | utils/yaml_parser.py:51-113 | Every collected fault has a `fault` key, a `.yaml` source file, a number of at least 1, and a configured subsystem, the one asked for when one was given. |
| YamlParser.YamlReader.GetAllFaults | utils/yaml_parser.py:51-113 | The method, with its loops over subsystems, files and sections, computes the specified collection. |
| YamlParser.FaultTreeFound | utils/yaml_parser.py:20-49 | A fault that is found is an untagged `fault` mapping with the name asked for, from a configured subsystem whose directory could be listed. |
| YamlParser.FaultTreeNone | utils/yaml_parser.py:20-49 | For a configured subsystem whose directory can be listed, nothing is found exactly when every document of every `.yaml` file lets the search go on. |
| YamlParser.YamlReader.GetFaultTree | utils/yaml_parser.py:20-49 | The method, with its loops over files and sections, computes the specified lookup. |

## Left out

- Tokenisation, stop words, lemmatisation and spelling lookup are parameters. The SymSpell dictionary is not modelled, and neither are the entries the module adds to it at import time (`services/input_preprocessing.py:91-95`).
- The sentence encoder and the cosine similarity are parameters. Their values are taken as exact reals, not 32-bit floats.
- `yaml.safe_load` is a parameter. Its result is abstracted to: a parse error, None, a mapping, or another value with its truthiness. A `fault` value is abstracted to its name, symptoms and causes.
- The database session and the file system (listing, existence test, reading) are parameters. Listing order is taken as given. So is Python's regular-expression engine for file filters that are not plain patterns.
- Causes are modelled by their text. The source's `str(cause)` of a structured cause is not modelled.
- Confidences, ratios and penalties are exact reals, not IEEE doubles.
- Lowercasing and the character classes `\d`, `\s` and letters are ASCII only. Whitespace is the ASCII whitespace of `str.split()`, `str.strip()` and `\s`, including U+001C to U+001F. Non-ASCII whitespace (U+0085, U+00A0 and the Unicode spaces), Unicode digits and Python's Unicode case mapping are not modelled.
- Clarification.AddMissingContext: a state key that is present with the value None is treated like a missing key. In Python, `.get(key, default)` gives None for such a key. The engine answer then lower-cases `None` and raises AttributeError (`services/input_preprocessing.py:205`, `:207`, `:191`). In the component and problem answers, a None engine or component is printed as "None" in the enhanced query (`services/input_preprocessing.py:245`, `:255`). The model does not have these outcomes.
- Faults.FaultBody: a `name`, `symptoms` or `causes` key with the value null cannot be told apart from a missing key. The outcomes that then differ from Python's are listed member by member below.
- NeuralEngine.AddFault: a null `symptoms` is read as an empty list, and the fault is added. In Python, the neural engine iterates over None and raises TypeError (`services/neural_engine.py:29-30`).
- NeuralEngine.BuildTableFails: by the same reading, a document whose `symptoms` is null builds its entry, so the lemma's "fails exactly when" does not count it. Python raises TypeError for it at `services/neural_engine.py:28-30`.
- RuleEngine.RuleResult: a fault with a positive score and a null `name` or `causes` fails with `KeyError("name")` or `KeyError("causes")`. In Python, `services/rule_engine.py:17` and `:19` read the None and return a result whose `fault` or `causes` is None. A null `symptoms` fails with `KeyError("symptoms")` where Python raises TypeError, when it iterates over None at `services/rule_engine.py:31`.
- RuleEngine.CollectFails: by the same reading, its "raises exactly when" also counts a fault with a positive score and a null `name` or `causes`. Python returns a result for such a fault.
- NeuralEngine.ResultFor: a null `causes` gives the result the empty list. In Python, `.get('causes', [])` at `services/neural_engine.py:53` returns the None itself.
- NeuralEngine.RankResults: by the same reading, "carries the entry's causes" gives `[]` for an entry whose `causes` is null, where Python's result carries None.
- The console output (`print`) of every engine, and `HybridEngine.get_strategy_info`, a constant description of the strategy.
- The engine constructors (`RuleEngine.__init__`, `HybridEngine.__init__`) that create the reader and the engines are not modelled. The engines are given their inputs directly: the rule engine's call to `get_all_faults` (`services/rule_engine.py:10`) becomes its list of fault documents.
- YamlParser.Matches: only plain patterns are interpreted, that is patterns whose only regular-expression characters are `.` (escaped) and `*` (read as `.*`). For any other pattern, `re.match` and the compile error it may raise are a parameter (`FileSystem.reMatch`).
- YamlParser.FilterPatterns: the order of the filtered files (by first matching pattern, then listing order) is fixed by its definition. No lemma restates it.

## Findings

| source | as written | input that shows it | evidently intended | confidence | as-written member | corrected member |
|---|---|---|---|---|---|---|
| services/hybrid_engine.py:27 and :38 | Both engines are called with the keyword `processed_data`, which neither engine's `process(self, query)` accepts. Each call raises a TypeError, which is caught, so both result lists are empty. | Any query. For example, "seawater pump leaking" with engines that would find faults. | Call each engine with the query alone and combine what they find. | not executed | HybridEngine.AsWrittenReturnsNothing | HybridEngine.CorrectedReturnsFaults |
