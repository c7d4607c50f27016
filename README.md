# changestructor (chg) — a Dafny model of its dialogue engine

chg turns a staged diff into a question-and-answer dialogue about the change
and records the chunk, the dialogue and the commit in a store. This project
models the deterministic logic between its git, machine-learning and UI
plumbing, and proves what that logic guarantees:

- **Python change analysis** (`chg/analysis/py_analysis.py`).
  - `PySyntax` holds the syntax tree as an arena in pre-order.
  - `PyContext` holds the two visitors as classes with an explicit definition stack: the node → innermost-definition map and the line → nodes index.
  - `PyAnalysis` holds the entity naming case split and the two per-line queries `get_entities` and `get_contexts`.
- **Question generation** (`chg/dialogue/analysis_dialogue.py`), module `AnalysisDialogue`. It builds the three template families and `get_questions`.
- **Fixed-list annotator** (`chg/annotator/template_annotator.py`), module `TemplateAnnotator`. It is a class whose question stack is reversed and popped from the front.
- **Question ranker bookkeeping** (`chg/ranker/model_based_ranking.py`), module `ModelBasedRanking`. It covers:
  - the clamped hinge loss;
  - `history_to_str`;
  - the feature layout;
  - the first-wins argmax of `predict`;
  - the training-set and refit schedule of `update`.
- **Tk annotation flow** (`chg/ui/tk_ui.py`), module `TkUi`. It covers the STAGING / DIALOGUE / COMMIT state machine and the add/remove tagging of diff lines.
- **Embedding text preparation** (`chg/embed/basic.py`), module `BasicEmbed`. It covers the token windowing of `embed_` and the dialogue merge of `embed_dialogue`.
- **Git log replay** (`chg/db/git_log_to_db.py`), module `GitLogToDb`. It runs over `ChunkStore`, which holds the two append-only tables of `chg/db/database.py` that the replay and the Tk flow write to.
- **Shared helpers.** `Strings` models Python's `startswith`, `join`, `split` and `strip`. `Sequences` models `reversed` and `flatten`. `Arith` holds facts about `//` and `%`. `Wrappers` holds Option and Result.

Embeddings, similarities, the regressor's score, the colour-stripping
shell-out, the diff between two commits and the commit hashes enter as
parameters (functions or values). The parsed tree, with each attribute's
unparsed text, is an input.

Behaviour of the code worth knowing:

- **Question order.** The annotator asks its questions last-to-first, because `_init_stack` reverses the list and `ask` pops index 0. It asks each of its fixed questions exactly once per chunk, and `consume_answer` leaves the questions unchanged.
- **Ranker.** Refits follow `step_ct % train_every == 0`, and `predict` always scores with the regressor: a ranker that was never fitted fails on its first candidate question, modelled as the error `NotFitted` with nothing changed. An empty dialogue renders as the empty text, which tokenizes to no window, so `torch.stack` on no chunk embeddings raises (chg/embed/basic.py:55-67); `predict` and `update` model this as the error `EmptyHistory`, raised before anything else.
- **`update` before `predict`.** This is a `KeyError` before any state changes. It is modelled as the error `MissingPrediction` with nothing changed.

## Model

| member | source | states |
|---|---|---|
| PyContext.SimpleContextCollector.Visit | chg/analysis/py_analysis.py:159-169 | the node is mapped to the stack's top as it was before the node is pushed; every node of its subtree gets an entry that is None or an earlier definition; each child gets its parent if the parent is a definition, else the parent's context; nothing outside the subtree changes; the stack comes back unchanged (push/pop balanced) |
| PyContext.SimpleContextCollector.VisitChildren | chg/analysis/py_analysis.py:167 | visiting the children in order extends the mapped prefix child subtree by child subtree until the whole subtree is mapped, with the stack unchanged |
| PyContext.SimpleContextCollector.Get | chg/analysis/py_analysis.py:171-174 | the map has exactly one entry per node, the root maps to None, every child maps to the context its parent hands down, and every entry is None or a strictly earlier definition |
| PyContext.ContextIsInnermost | chg/analysis/py_analysis.py:159-169 | in the collected map every node's entry is its innermost enclosing definition (None when no definition encloses it), so a definition never maps to itself |
| PyContext.LineToNodeMapper.Visit | chg/analysis/py_analysis.py:181-186 | every node of the subtree that has a line is appended to exactly that line's list, in visit order; nodes without a line are skipped |
| PyContext.LineToNodeMapper.Get | chg/analysis/py_analysis.py:188-191 | each line maps to the nodes carrying that line in pre-order, and only lines carrying some node are keys |
| PyContext.OnLineMembers | chg/analysis/py_analysis.py:183 | a node is listed under a line exactly when it carries that line |
| PyContext.OnLineIncreasing | chg/analysis/py_analysis.py:181-186 | each line's list is strictly increasing in visit order, so no node is listed twice |
| PyContext.ParentOf | chg/analysis/py_analysis.py:167 | every node but the root is a child of its innermost proper ancestor, which is how the visitor reaches it |
| PyAnalysis.ContextChain | chg/analysis/py_analysis.py:138-144 | the walk up the context map from a definition lists definitions only, starting there and strictly going up, and is empty exactly for None |
| PyAnalysis.ChainIsEnclosingDefs | chg/analysis/py_analysis.py:138-144 | the chain from a node's context lists exactly the definitions enclosing the node, never the node itself |
| PyAnalysis.EnclosingClass | chg/analysis/py_analysis.py:62-73 | a found enclosing class is a class definition of the tree |
| PyAnalysis.GetEnclosingClassNode | chg/analysis/py_analysis.py:62-73 | the loop returns the node itself if it is a class, else the first class on the context chain, else None |
| PyAnalysis.EnclosingClassIsInnermost | chg/analysis/py_analysis.py:62-73 | for a non-class node the result is the innermost class enclosing it, and None means no class encloses it |
| PyAnalysis.MethodNodeIsDirectlyInClass | chg/analysis/py_analysis.py:52-59 | a node is a method exactly when it is a function definition whose innermost enclosing definition is a class |
| PyAnalysis.MethodName | chg/analysis/py_analysis.py:76-79 | the name is the name of the class the context map gives, a dot, and the function name: the part before the last dot is that class name |
| PyAnalysis.AfterFirstDotOfSelf | chg/analysis/py_analysis.py:96 | for a name starting "self.", dropping the first dotted piece leaves exactly the text after "self." |
| PyAnalysis.EntityNameAbsent | chg/analysis/py_analysis.py:82-110 | exactly these nodes have no entity name: the bare name `self`, a `self.` attribute outside every class, and kinds the split does not name |
| PyAnalysis.EntityNameOfDefinition | chg/analysis/py_analysis.py:83-90 | classes give "class definition N", methods "method definition C.f" with C the class directly around them, other functions "function definition f" |
| PyAnalysis.EntityNameOfAttribute | chg/analysis/py_analysis.py:91-99 | a `self.` attribute inside a class becomes innermost class name + "." + text after "self."; any other attribute keeps its stripped text |
| PyAnalysis.EntityNameOfCall | chg/analysis/py_analysis.py:106-108 | a call is named "function call " + its callee's name, with "None" for a callee without one |
| PyAnalysis.EntitiesOnLines | chg/analysis/py_analysis.py:120-131 | `get_entities(lines)` contains a name exactly when some node on those lines has that entity name; no lines give the empty set |
| PyAnalysis.ContextsOnLines | chg/analysis/py_analysis.py:133-145 | `get_contexts(lines)` contains a name exactly when it names a definition strictly enclosing some node on those lines; no lines give the empty set |
| PyAnalysis.AddChainNames | chg/analysis/py_analysis.py:140-144 | the `while ctx` loop adds exactly the names along the chain to the set |
| PyAnalysis.AnalyzedPythonFile.constructor | chg/analysis/py_analysis.py:114-118 | the file keeps the tree with the two maps the visitors build from it |
| PyAnalysis.AnalyzedPythonFile.GetEntities | chg/analysis/py_analysis.py:120-131 | the nested loops compute the per-line union of entity names that EntitiesOnLines characterises |
| PyAnalysis.AnalyzedPythonFile.LineEntities | chg/analysis/py_analysis.py:125-129 | the inner loop collects the entity names of one line's nodes |
| PyAnalysis.AnalyzedPythonFile.GetContexts | chg/analysis/py_analysis.py:133-145 | the loops compute the per-line union of chain names that ContextsOnLines characterises |
| PyAnalysis.AnalyzedPythonFile.AddLineContexts | chg/analysis/py_analysis.py:136-144 | the node loop adds the chain names of each of one line's nodes |
| PyAnalysis.AnalyzeRegions | chg/analysis/py_analysis.py:43-49 | one analysis per changed region, in order, with the old file answering for the old lines and the new file for the new ones |
| AnalysisDialogue.OverlapQuestionsExactly | chg/dialogue/analysis_dialogue.py:1-10 | "How does this affect the functionality of X?" is asked exactly when some region has X among both its before and after contexts |
| AnalysisDialogue.NewEntitiesQuestionsExactly | chg/dialogue/analysis_dialogue.py:13-22 | "What does X do?" is asked exactly when some region has X after and not before |
| AnalysisDialogue.RemovedEntitiesQuestionsExactly | chg/dialogue/analysis_dialogue.py:25-34 | "What replaced X (if anything)?" is asked exactly when some region has X before and not after |
| AnalysisDialogue.SharedEntityAsksNothing | chg/dialogue/analysis_dialogue.py:19-31 | an entity on both sides of a region yields neither a new nor a removed question for it |
| AnalysisDialogue.TemplatesInjective | chg/dialogue/analysis_dialogue.py:3-27 | each template determines the entity it was filled with |
| AnalysisDialogue.TemplatesDisjoint | chg/dialogue/analysis_dialogue.py:3-27 | no question text comes from two different templates |
| AnalysisDialogue.FamiliesDisjoint | chg/dialogue/analysis_dialogue.py:1-34 | the three question families share no question |
| AnalysisDialogue.ListOf | chg/dialogue/analysis_dialogue.py:51-53 | extending a list with a set lists each element of the set exactly once |
| AnalysisDialogue.GetQuestions | chg/dialogue/analysis_dialogue.py:45-54 | the list is all overlap questions, then all new-entity questions, then all removed-entity questions, none repeated; no regions give no questions |
| AnalysisDialogue.EnumeratesConcat | chg/dialogue/analysis_dialogue.py:51-53 | listing two disjoint sets one after the other lists their union without repetition |
| TemplateAnnotator.FixedListAnnotator.constructor | chg/annotator/template_annotator.py:2-5 | keeps the questions, no chunk, stack = questions reversed |
| TemplateAnnotator.FixedListAnnotator.InitStack | chg/annotator/template_annotator.py:7-8 | the stack becomes the original questions reversed |
| TemplateAnnotator.FixedListAnnotator.ConsumeChunk | chg/annotator/template_annotator.py:10-13 | the stack is reset to the reversed questions whatever was asked before, and the chunk is recorded |
| TemplateAnnotator.FixedListAnnotator.GetChunkUpdate | chg/annotator/template_annotator.py:15-17 | always None |
| TemplateAnnotator.FixedListAnnotator.Done | chg/annotator/template_annotator.py:19-20 | true exactly when no question is left |
| TemplateAnnotator.FixedListAnnotator.Ask | chg/annotator/template_annotator.py:22-26 | when done: None and nothing changes; otherwise returns the stack's head and removes exactly it |
| TemplateAnnotator.FixedListAnnotator.ConsumeAnswer | chg/annotator/template_annotator.py:28-30 | changes nothing |
| TemplateAnnotator.FixedListAnnotator.HasCommitMessage | chg/annotator/template_annotator.py:32-33 | always false |
| TemplateAnnotator.AskAll | chg/annotator/template_annotator.py:19-26 | after a fresh chunk, asking until done yields exactly as many questions as given, from the last one to the first |
| Sequences.Reverse | chg/annotator/template_annotator.py:8 | reversal keeps the length |
| Sequences.ReverseAt | chg/annotator/template_annotator.py:8 | element k of the reversal is element len-1-k of the original |
| ModelBasedRanking.Hinge | chg/ranker/model_based_ranking.py:73-74 | a hinge term is never negative, is at least `delta - pos + neg`, equals it when positive, and is zero exactly when `pos >= delta + neg` |
| ModelBasedRanking.MeanHinge | chg/ranker/model_based_ranking.py:73-76 | the mean of the clamped terms is undefined exactly without negatives (the empty normalisation fails) and otherwise never negative |
| ModelBasedRanking.ComputeLoss | chg/ranker/model_based_ranking.py:65-76 | `compute_loss` fails exactly without negatives, is never negative, and is zero exactly when the code–dialogue similarity beats each negative–dialogue similarity by `delta` |
| ModelBasedRanking.SumNonNegative | chg/ranker/model_based_ranking.py:75 | a sum of non-negative terms is non-negative and zero exactly when every term is |
| ModelBasedRanking.MeanHingeProperties | chg/ranker/model_based_ranking.py:65-76 | the loss is undefined exactly without negatives, otherwise non-negative, and zero exactly when the positive similarity beats every negative by `delta` |
| ModelBasedRanking.HistoryToStrAppend | chg/ranker/model_based_ranking.py:78-82 | an empty history renders as "", one pair as "q:a", and each further pair adds a space and its "q:a" |
| ModelBasedRanking.HistoryToStr | chg/ranker/model_based_ranking.py:78-82 | the rendered history is empty exactly when the history is, since each pair contributes at least its ":" |
| ModelBasedRanking.FeatureLayout | chg/ranker/model_based_ranking.py:105-106 | a candidate's features are code, history, the flattened negatives and the question vector, each readable back at its offset, with the length fixed by the part sizes |
| ModelBasedRanking.FirstMaxUnique | chg/ranker/model_based_ranking.py:137-140 | at most one index is the first maximum, so the first-wins choice is determined by the scores |
| ModelBasedRanking.FitScheduleCount | chg/ranker/model_based_ranking.py:165-167 | over n updates the model is refitted n // train_every times when train_every > 0 and never otherwise, each time at a step the modulus test accepts |
| ModelBasedRanking.QuestionRanker.constructor | chg/ranker/model_based_ranking.py:35-45 | no prediction, empty training set, step zero, no refit (so the regressor is not yet fitted) |
| ModelBasedRanking.QuestionRanker.Predict | chg/ranker/model_based_ranking.py:90-147 | an empty dialogue fails first, since its text is "" and the embedder has no token window to average, and nothing changes; then no negatives fail before anything is cached; an unfitted regressor fails on the first question and nothing changes; otherwise returns the first index of the maximal score (ties to the earliest) with that score and caches code, negatives and the winner's features, and no questions give (None, None) and cache no features |
| ModelBasedRanking.QuestionRanker.Update | chg/ranker/model_based_ranking.py:156-167 | appends the cached features and the realised loss, adds one to the step count and refits exactly when the modulus test holds; an empty dialogue fails first, as its text cannot be embedded, and without an earlier predict it fails next, both changing nothing |
| TkUi.LineTag | chg/ui/tk_ui.py:112-115 | "add" exactly for lines starting "+" but not "+++", "remove" exactly for "-" but not "---", no tag otherwise |
| TkUi.TagsUpToMembers | chg/ui/tk_ui.py:110-118 | row r carries a tag exactly when line r-1 has that tag; rows are 1-based and increasing |
| TkUi.LinesTextOfSplit | chg/ui/tk_ui.py:110-111 | writing each line of the split chunk followed by a newline gives the chunk plus one newline |
| TkUi.TkUI.constructor | chg/ui/tk_ui.py:91-104 | starts in STAGING with nothing answered and shows the first chunk with the staging prompt; no chunks end the session |
| TkUi.TkUI.DisplayChunk | chg/ui/tk_ui.py:106-119 | the code box shows the colour-stripped chunk and tags exactly the rows LineTag tags; nothing else changes |
| TkUi.TkUI.NextChunk | chg/ui/tk_ui.py:161-168 | no chunk left ends the session and leaves the code box; otherwise the code box shows the head chunk with its tags, with the staging prompt and STAGING |
| TkUi.TkUI.NextQuestion | chg/ui/tk_ui.py:173-180 | moves to COMMIT with "Commit message:" exactly when the annotator is done; otherwise shows the annotator's next question and keeps the state; the code box, the chunks and the logs are unchanged |
| TkUi.TkUI.ConsumeStaging | chg/ui/tk_ui.py:137-159 | an answer other than "Y"/"n" only re-prompts; "Y" stages the head chunk (outside dev), hands it to the annotator without removing it, keeps the code box and shows the last seed question (or the commit prompt when there is none); "n" drops exactly the head chunk and either ends the session (no chunk left) or shows the next chunk in STAGING |
| TkUi.TkUI.CommitChunk | chg/ui/tk_ui.py:196-209 | removes exactly the head chunk; outside dev commits it with the typed message and records the colour-stripped text of that chunk between the hashes, with the dialogue under the new chunk's id; then ends the session (no chunk left) or shows the next chunk in STAGING |
| TkUi.TkUI.ConsumeAnswer | chg/ui/tk_ui.py:182-194 | dispatches on the state with each case's full effect: STAGING as ConsumeStaging, DIALOGUE appends exactly one stripped (question, answer) pair and asks the next question with the code box kept, COMMIT as CommitChunk with the annotator untouched; clears the input unless the session ended |
| BasicEmbed.Slice | chg/embed/basic.py:57 | a slice of a window holds at most chunk_len tokens, stopping at the end |
| BasicEmbed.WindowsFrom | chg/embed/basic.py:55-58 | every window opens with the `cls` token, closes with the `sep` token and holds at most chunk_len tokens between them |
| BasicEmbed.WindowsFromAt | chg/embed/basic.py:55-58 | window k starts at token k·chunk_len inside the sequence and has between 2 and chunk_len + 2 tokens |
| BasicEmbed.WindowsFromCover | chg/embed/basic.py:55-57 | the inner slices of the windows concatenate to the tokens: nothing lost or repeated |
| BasicEmbed.WindowsFromCount | chg/embed/basic.py:55 | there are as many windows as the remaining tokens need at chunk_len per window |
| BasicEmbed.ChunkCountIsCeiling | chg/embed/basic.py:55 | that count is ceil(len / chunk_len) |
| BasicEmbed.WindowsLayout | chg/embed/basic.py:54-58 | the windows from token 0 are ceil(len / chunk_len) windows `[cls] + tokens[k·c : k·c + c] + [sep]`, each at most max_len − 2 long, whose inner slices give back the tokens |
| BasicEmbed.EmbedWindows | chg/embed/basic.py:48-67 | chunk_len 0 fails as `range` does; no window (no tokens, or negative chunk_len) fails at the stack; otherwise the loop builds exactly those windows |
| BasicEmbed.MergedEmptyDialogue | chg/embed/basic.py:83-85 | an empty dialogue merges to ":" |
| BasicEmbed.MergedDialogueSplits | chg/embed/basic.py:86-88 | the merged text splits at its newlines back into the "q:a" texts in dialogue order, one per pair, when no question or answer holds a newline |
| Strings.Split | chg/ui/tk_ui.py:110 | `split` gives at least one piece and no piece holds the separator |
| Strings.JoinSplit | chg/ui/tk_ui.py:110 | joining the pieces of a split with the separator gives back the string |
| Strings.SplitJoin | chg/embed/basic.py:86-88 | splitting a join of separator-free parts gives back the parts |
| Strings.Strip | chg/ui/tk_ui.py:128-129 | `strip()` removes exactly the leading and trailing whitespace |
| Strings.StripUnchanged | chg/ui/tk_ui.py:128-129 | stripping a stripped text changes nothing |
| ChunkStore.Store.constructor | chg/db/database.py:85-91 | both tables start empty |
| ChunkStore.Store.RecordChunk | chg/db/database.py:108-110 | appends exactly the chunk row and returns its 1-based id; the dialogue table is unchanged |
| ChunkStore.Store.RecordDialogue | chg/db/database.py:112-120 | appends one row per pair in order and returns their consecutive ids; the chunk table is unchanged |
| GitLogToDb.LogToDb | chg/db/git_log_to_db.py:9-28 | the store gains exactly the replayed chunks of the reversed log and their dialogue rows, each under the id of its chunk |
| GitLogToDb.ReplayCount | chg/db/git_log_to_db.py:13-15 | zero or one entry records nothing; n entries record n − 1 chunks and n − 1 dialogue rows |
| GitLogToDb.ReplayChain | chg/db/git_log_to_db.py:13-19 | record k goes from the k-th oldest commit to the next one, so each record's new hash is the next record's old hash |
| GitLogToDb.ReplayDialogueMatchesChunks | chg/db/git_log_to_db.py:23-28 | each dialogue row is the single "Commit: " question, answered with the newer commit's subject and body, about the chunk recorded for the same pair |

## Left out

- **Machine learning.** The random-forest regressor and its expected-improvement score, the cosine similarity with `normalize_vectors`, and the CodeBERT model with torch's averaging over windows and tokens are numerical code outside the model. Scores, similarities and embeddings are parameters. The windows `embed_` feeds the network are modelled, but not the vectors it returns.
- **Negative sampling and persistence.** `sample_negative_code` draws from the database in random order, so the negatives are a parameter of `Predict`. Not modelled: `build_ranker_from_git_log`, `load_ranker`, `store_ranker`, `fit_model` and `embed_code`/`embed_nl`. A refit is recorded as the training-set size it was fitted on.
- **Shell-outs.** `strip_ansi_colors` and `remove_color_ascii` are the parameter `stripColors`. The git helpers that produce changed lines, file contents, the log and diffs are inputs, as are the commit hashes and the chunker's chunks. `chunker.stage` and `chunker.commit` are logged as the fields `staged` and `committed`.
- **Parsing.** `ast.parse` and `astunparse.unparse` are foreign code. The tree, and the stripped text of each attribute, are given. `PythonAnalysis.can_apply` and the file and git reads in `PythonAnalysis.__init__` are I/O. The region loop of `__init__` is modelled as `AnalyzeRegions`.
- **Storage.** SQLite is reduced to two append-only sequences whose ids are 1-based positions. That is what an `INTEGER PRIMARY KEY` assigns when rows are only ever appended. `run_query`, `db_to_text` and `get_dialogue_by_ids` are not modelled.
- **Tk widgets.** Not modelled: the widget layout, `mainloop`, the Quit button, the ask window (`setup_ask_ui`, `run_query`, `display_results`) and `prompt_staging`/`display_question` as separate calls. The boxes are string fields. `sys.exit` becomes the flag `finished`, after which no method is called. The input box is therefore not cleared after the last chunk, because the source exits before `clear_user_text`.
- TkUi.TkUI.CommitChunk: records the code box as the model shows it (the chunk and one newline). Tk's `get("1.0", END)` adds one more trailing newline, which is not modelled.
- AnalysisDialogue.ListOf: the order in which a Python set is iterated is unspecified. The model lists the elements in an unspecified order and proves only that each is listed once.
- ModelBasedRanking.QuestionRanker.Predict: `score` stands for a fitted regressor that returns a number. A zero spread across the forest's trees makes the expected improvement NaN, and a NaN score never loses the `y > best_score` test; real-valued scores cannot express this.
- ModelBasedRanking.QuestionRanker.Update: records a refit even when the training set holds an entry with no features (from a `predict` with no questions) or feature vectors of different lengths, where the regressor's `fit` would raise.
- **Unreachable or foreign code.** `get_call_graph_questions` only raises `NotImplementedError`. `chg/ui/simple_cli_ui.py`, `chg/main.py`, `chg/search/embedded_search.py`, the chunker and the platform wrappers are I/O orchestration and are not part of this model.
- **`defaultdict` reads.** `get_entities` indexes the line index with `[line]`, which inserts an empty list for an unseen line. The insertion is not observable by either query, so both queries read a missing line as the empty list.
