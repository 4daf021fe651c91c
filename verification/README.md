# ALMA — a Dafny model of the page's state machine

ALMA ("Matrix ALMA") is a single-page Streamlit app, `Alma.py`. A user
registers, walks through a five-step tutorial, creates "quantum entities"
(a name plus optional code), interacts with them until their energy runs
out, removes them, chats with one of five AI services, and saves code from
the code runner as a new entity. Streamlit re-executes the whole script on
every widget event. Everything that must survive between runs lives in
`st.session_state`. Within a run, `ALMA_System` builds a fresh
`RerunManager` and a fresh removal queue. At the end of the run it asks for
a rerun if any handler requested one.

The model follows the script's structure, one module per part:

- `Wrappers`: `Option` and `Result`.
- `Text`: the Python string operations the page relies on. These are:
  - `str.strip` over the `str.isspace` characters;
  - `str.splitlines` with its full set of boundaries, where `"\r\n"` counts as one boundary;
  - `startswith` and substring `in`;
  - the ASCII part of `lower` and `capitalize`.
- `Entity`: `QuantumEntity`. It covers construction with its placeholder name, the energy/status machine of `interact`, and the `generate_visualization` classifier.
- `Registry`: the entity store. It covers:
  - the entity creator, with its two input checks;
  - the "save as entity" path of the code runner;
  - the interaction button;
  - the deferred-removal queue and `process_pending_operations`.
- `Rerun`: `RerunManager`. Callbacks are opaque labels. `st.rerun()` is the final event of a run's trace.
- `Tutorial`: the step navigation of `show_interactive_tutorial` and the sidebar toggle.
- `Chat`: the connection map and service selection, and the history updates of `process_ai_response`. The AI's reply is an opaque input.
- `Page`: one run of `ALMA_System.__init__`, composed of:
  - the sidebar;
  - the registration form, the tutorial or the main interface;
  - the pending rerun.

  Streamlit hands a run at most one widget event, so each run is driven by one `Action`. `Page.RunAll` chains runs. Values the script draws from the environment are inputs of the action: uuids, clock readings, random positions, the service the prompt library draws, the AI reply.

## Model

| member | source | states |
|---|---|---|
| Text.TrimLeft | Alma.py:112 | the result is a suffix of the input, it does not start with whitespace, and everything removed is whitespace |
| Text.TrimRight | Alma.py:112 | the result is a prefix of the input, it does not end with whitespace, and everything removed is whitespace |
| Text.Strip | Alma.py:112 | `strip()` yields the stretch of the input that starts after its leading whitespace, is followed only by whitespace, and neither begins nor ends with whitespace |
| Text.StripEmptyIff | Alma.py:317 | `not name.strip()` holds exactly when every character of the name is whitespace |
| Text.StripIdempotent | Alma.py:321 | stripping an already stripped name changes nothing |
| Text.StripKeepsTrimmed | Alma.py:112 | a string that neither begins nor ends with whitespace is its own strip |
| Text.ContainsIff | Alma.py:138-142 | the substring test `p in s` holds exactly when `p` occurs at some position of `s` |
| Text.ContainsAppendRight | Alma.py:138-142 | a substring of `s` stays a substring once text is appended |
| Text.ContainsAppendLeft | Alma.py:138-142 | a substring of `t` stays a substring once text is prepended |
| Text.SplitLines | Alma.py:391 | `str.splitlines()`; pinned down by `Text.SplitLinesBroken`, `Text.LinesHaveNoBreaks` and `Text.SomeLineStartsWithIff`, which together say the lines are the boundary-free stretches between boundaries |
| Text.FirstBreak | Alma.py:391 | the index found is the first line boundary, or the end of the text when there is none |
| Text.AfterBreak | Alma.py:391 | what follows a boundary is a strict suffix of the text, so the line splitter terminates |
| Text.LinesHaveNoBreaks | Alma.py:391 | no line produced by `splitlines()` contains a boundary character |
| Text.SplitLinesBroken | Alma.py:391 | text with a boundary splits into the part before its first boundary and the lines of what follows |
| Text.LineToPosition | Alma.py:391 | a line that starts with `p` gives a line-start position of the text where `p` occurs |
| Text.PositionToLine | Alma.py:391 | `p` occurring at a line start, when `p` is nonempty and free of boundaries, is the start of some line |
| Text.SomeLineStartsWithIff | Alma.py:391 | `any(line.startswith(p) for line in code.splitlines())` holds exactly when `p` occurs at a line start |
| Text.Lower | Alma.py:576 | `lower()` maps every character on its own and keeps the length |
| Text.Capitalize | Alma.py:510 | `capitalize()` upper-cases the first character and lower-cases the rest |
| Text.LowerCapitalize | Alma.py:510 | for a lower-case key, lower-casing the capitalized label gives the key back, and the label starts with a capital |
| Text.CapitalizedWord | Alma.py:659 | a word that is already capitalized is its own capitalization, and so is its lower-cased form once capitalized |
| Entity.Placeholder | Alma.py:112 | the placeholder for a blank name is `Entidade_` followed by the first six characters of the id (all of it when shorter), which are a prefix of the id |
| Entity.DisplayName | Alma.py:112 | the name is the stripped name when that is nonblank, and otherwise the placeholder `Entidade_` plus the start of the id; it is never empty |
| Entity.New | Alma.py:110-119 | a new entity is reachable, active, at energy 100, with no connections and no visualization, and keeps the given id, code, time and position |
| Entity.Interact | Alma.py:129-134 | energy drops by 10, floored at 0; at 0 the entity is dormant; a dormant entity stays dormant; nothing but energy and status changes |
| Entity.InteractPreservesReachable | Alma.py:129-134 | an interaction keeps energy a multiple of 10 in [0, 100] with "dormant exactly at 0", and never raises energy |
| Entity.InteractIdempotentAtFloor | Alma.py:131-133 | at energy 0 an interaction changes nothing |
| Entity.InteractTimes | Alma.py:129-134 | `n` calls of `interact` in a row; pinned down by `Entity.InteractTimesEnergy` (energy `max(0, e - 10n)`, nothing else changes but the status) and `Entity.DormantForever` |
| Entity.InteractTimesEnergy | Alma.py:129-134 | after `n` interactions the energy is `max(0, e - 10n)`, and only energy and status have changed |
| Entity.InteractTimesMonotone | Alma.py:129-134 | energy never increases along a run of interactions |
| Entity.InteractTimesReachable | Alma.py:129-134 | every entity reached from a reachable one by interactions is reachable |
| Entity.DormantForever | Alma.py:132-133 | once dormant, an entity stays dormant |
| Entity.TenInteractionsExhaust | Alma.py:115-134 | a new entity is still active after nine interactions, dormant at 0 after ten, and an eleventh changes nothing |
| Entity.Classify | Alma.py:136-145 | the tag is matplotlib iff the code contains `plt.show()`; streamlit iff it does not but contains `st.`; codigo iff neither but one of `def `, `class `, `import `; texto otherwise |
| Entity.GenerateVisualization | Alma.py:136-145 | the visualization is set to the classification of the entity's own code and nothing else changes |
| Entity.ClassifyConcatMonotone | Alma.py:136-145 | joining two pieces of code never yields a lower-priority tag than either piece |
| Entity.EmptyCodeIsText | Alma.py:144-145 | empty code is classified as text |
| Entity.PlotWins | Alma.py:138-139 | code containing `plt.show()` anywhere is matplotlib, whatever else it contains |
| Registry.Build | Alma.py:395-396 | the created entity is reachable, active, at energy 100, carries the given id and code, and is classified from its code |
| Registry.Insert | Alma.py:397 | storing under a fresh id adds exactly that key and keeps every other entry |
| Registry.Validate | Alma.py:385-393 | a blank name is refused first; otherwise code with a line starting `ID:` is refused; input is accepted exactly when neither holds |
| Registry.ValidateAcceptsIff | Alma.py:386-391 | input is accepted exactly when the name is not all whitespace and `ID:` occurs at no line start of the code |
| Registry.CreateEntity | Alma.py:385-399 | the creator fails exactly when a check refuses, reporting that check's reason; on success the registry gains exactly the fresh id, keeps every other entity, and stores an entity with energy 100, active, stripped name, the code and its classification; the message reports the name |
| Registry.CreateEntityAccepted | Alma.py:395-398 | accepted input yields the insert of the constructed, classified entity under the fresh id, reported by its name |
| Registry.CreatePreservesValid | Alma.py:395-397 | creation keeps every entity stored under its own id and reachable |
| Registry.EmptyNameRefused | Alma.py:386-388 | an empty name is refused as blank |
| Registry.MarkerLineRefused | Alma.py:391-393 | code whose first line starts with `ID:` is refused |
| Registry.MarkerLaterLineRefused | Alma.py:391-393 | code whose later line starts with `ID:` is refused |
| Registry.IndentedMarkerAccepted | Alma.py:391 | `ID:` behind a leading space is not at a line start and is accepted |
| Registry.SaveAsEntity | Alma.py:694-698 | saving adds exactly the fresh id holding an entity with that id, the runner's code, energy 100, active and classified from its code, named by the stripped name when that is nonblank; every other entity is kept, and the message reports the saved name |
| Registry.SaveSkipsMetadataCheck | Alma.py:694-698 | saving keeps the registry valid and stores code the creator would refuse for its `ID:` line |
| Registry.InteractWith | Alma.py:427-430 | an unknown id changes nothing; otherwise only that entity is replaced by its interaction, and the message reports its name and remaining energy |
| Registry.InteractPreservesValid | Alma.py:427-430 | interacting keeps the registry valid and its keys, leaves other entities untouched, and never raises energy |
| Registry.ApplyRemovals | Alma.py:755-759 | the queue's `pop(eid, None)` commands in order; `Registry.ApplyRemovalsIsDifference` shows it removes exactly the queued ids and `Registry.Drain` computes it with the source's loop |
| Registry.ApplyRemovalsIsDifference | Alma.py:755-759 | draining a queue of `pop(eid, None)` commands removes exactly the queued ids |
| Registry.Drain | Alma.py:755-759 | the loop empties the queue, and the registry loses exactly the queued ids with every remaining entity unchanged |
| Registry.RemoveAbsentIsNoop | Alma.py:435 | removing an absent id changes nothing |
| Registry.DuplicateRemovalIsOnce | Alma.py:755-759 | queuing the same id twice has the same effect as queuing it once |
| Registry.RemovalsPreserveValid | Alma.py:755-759 | draining keeps the registry valid |
| Rerun.NewManager | Alma.py:762-766 | a new manager has no pending rerun, no reason and no callbacks |
| Rerun.RequestRerun | Alma.py:768-771 | a request sets the pending flag and stores the reason, keeping the callbacks |
| Rerun.AddPreCallback | Alma.py:781-783 | the callback is appended to the pre-rerun list; nothing else changes |
| Rerun.AddPostCallback | Alma.py:785-787 | the callback is appended to the post-rerun list; nothing else changes |
| Rerun.IsRerunPending | Alma.py:773-775 | the flag holds exactly when executing now would emit the rerun |
| Rerun.GetRerunReason | Alma.py:777-779 | the reason of the latest request; `Rerun.LastReasonWins` shows a later request replaces an earlier one and `Rerun.ExecuteTwiceIsOnce` that a fired rerun clears it |
| Rerun.Execute | Alma.py:789-806 | executing clears the flag and keeps both callback lists; when idle it does nothing; when pending it clears the reason and emits one event per pre-rerun callback and the rerun last; `Rerun.ExecutePendingRerun` computes the same with the source's loop |
| Rerun.PreEvents | Alma.py:793-794 | the pre-rerun callbacks run once each, in registration order |
| Rerun.ExecutePendingRerun | Alma.py:789-806 | with nothing pending nothing happens; otherwise the pre-rerun callbacks run in order, the flag and reason are cleared, and the rerun is the last event |
| Rerun.LastReasonWins | Alma.py:768-779 | of two requests before an execution, only the second reason remains and is the one `get_rerun_reason` reports |
| Rerun.PendingIffRerun | Alma.py:773-802 | `is_rerun_pending` holds exactly when executing emits the rerun, which is then the last event |
| Rerun.NoPostCallbacks | Alma.py:802-806 | no post-rerun callback ever runs, and nothing precedes the rerun except pre-rerun callbacks |
| Rerun.ExecuteTwiceIsOnce | Alma.py:789-799 | after `execute_pending_rerun` nothing is pending and a rerun that fired leaves no reason, so a second call does nothing |
| Rerun.CallbacksOnlyGrow | Alma.py:781-787 | callback lists only ever grow: each is a prefix of itself after any further operations |
| Tutorial.Init | Alma.py:194-199 | the tutorial starts visible at step 1 |
| Tutorial.Press | Alma.py:278-295 | a button that is not drawn does nothing; "previous" moves back; "next" moves forward before step 5 and hides the tutorial at step 5; the step stays in [1, 5] |
| Tutorial.Toggle | Alma.py:226-228 | the sidebar toggle flips visibility and keeps the step |
| Tutorial.NextUndoesPrev | Alma.py:286-292 | "next" after "previous" returns to the same state |
| Tutorial.PrevUndoesNext | Alma.py:286-292 | "previous" after "next" before the last step returns to the same state |
| Tutorial.StepAlwaysInRange | Alma.py:278-295 | whatever inputs follow, the step stays in [1, 5] |
| Tutorial.StepMovesByOne | Alma.py:286-294 | each input moves the step by at most one |
| Tutorial.WalkThrough | Alma.py:290-294 | five presses of "next" from the start end at step 5 with the tutorial hidden |
| Chat.InitialConnections | Alma.py:180-187 | the session starts with the five services, none connected |
| Chat.Connect | Alma.py:508-509 | after connecting, exactly the chosen key is connected |
| Chat.ConnectLastWins | Alma.py:508-509 | connecting twice is the same as connecting to the second service alone |
| Chat.ConnectKeepsShape | Alma.py:508-509 | for a listed service the map keeps the five keys, with at most one connected |
| Chat.SelectService | Alma.py:505-512 | a service button connects only that service, labels it `capitalize(key)`, and clears the prompt template |
| Chat.SelectedLabelRoutesBack | Alma.py:510 | lower-casing the stored label gives back the key the button was for, and the label starts with a capital |
| Chat.OpenaiLabel | Alma.py:499-510 | the first button's label is stored as `Openai` |
| Chat.ProcessAIResponse | Alma.py:555-622 | the history grows by exactly the user's prompt and then the reply, both tagged with the current AI; earlier entries are untouched |
| Chat.Conversation | Alma.py:520-525 | the shown messages are exactly the history entries tagged with the current AI: each shown one is such an entry, and each such entry is shown |
| Chat.ConversationAppend | Alma.py:520-525 | the shown conversation of a concatenated history is the concatenation of the shown conversations |
| Chat.LibraryLabelIsServiceLabel | Alma.py:659 | each label the prompt library can pick is its own capitalization and the very label the button of the same service stores |
| Chat.ExchangeShownOnlyUnderItsLabel | Alma.py:520-620 | a new exchange appears, prompt then reply, under its own AI's conversation and under no other |
| Page.InitSession | Alma.py:170-199 | the first run's session satisfies the invariant: no entities, no user, empty history, no current AI, all five services present and none connected, help hidden, no last interaction, an empty prompt template, the tutorial at step 1 and visible |
| Page.Sidebar | Alma.py:201-228 | the sidebar's three buttons; `Page.SidebarButtons` states the help toggle and the reset, `Tutorial.Toggle` the tutorial toggle, `Page.ScreensPreserveInvariant` the invariant |
| Page.Registration | Alma.py:297-328 | the registration form; `Page.RegistrationStoresStrippedName` states its effect and `Page.ScreensPreserveInvariant` the invariant |
| Page.TutorialScreen | Alma.py:278-295 | a drawn tutorial button moves the step as `Tutorial.Press` states and reruns; `Page.ScreensPreserveInvariant` keeps the invariant |
| Page.Creator | Alma.py:376-399 | the creator's form; `Page.RefusedCreationChangesNothing` and `Page.AcceptedCreationInserts` state both outcomes, `Page.OnlyCreatorHandlesCreate` that no other part reacts to it |
| Page.ListButtons | Alma.py:401-438 | the interaction and removal buttons; `Registry.InteractWith` states the interaction, `Page.RemovalIsLostAsWritten` the removal as written |
| Page.ChatPanel | Alma.py:492-553 | the service buttons and the chat form, shown only while the current label is set and nonempty, as the truthiness test at line 514 requires; `Chat.SelectService` and `Page.SubmitPromptRecordsExchange` state their effect |
| Page.PromptLibrary | Alma.py:652-660 | a "use this prompt" button; `Page.LibraryPromptOpensChat` states its effect |
| Page.CodeRunner | Alma.py:694-699 | the "save as entity" button, saving under `App_` and four hexadecimal characters of a uuid; `Page.SavedAppIsNamedByTag` states its effect and `Page.CodeRunnerPreservesInvariant` the invariant |
| Page.SavedAppIsNamedByTag | Alma.py:694-698 | on the main interface, the save button adds exactly the fresh id, holding the runner's code under the name `App_` plus the tag, with energy 100; the message reports that name and the page reruns |
| Page.MainInterface | Alma.py:330-364 | the creator, the list with its drain, the chat panel, the prompt library and the code runner in drawing order; `Page.MainPreservesInvariant` keeps the invariant |
| Page.Step | Alma.py:150-168 | the body of a run up to the final rerun; `Page.StepPreservesInvariant` keeps the invariant |
| Page.Run | Alma.py:150-168 | one run as written, with the queue dropped at its end; `Page.RunTraceIsAtMostRerun` bounds its trace and `Page.RunNeverRemovesAsWritten` shows only the reset removes entities |
| Page.RunCorrected | Alma.py:401-438 | one run with the removal queue kept for the next run; `Page.RemovalTakesEffectCorrected` and `Page.CorrectedRunDrains` state what it removes |
| Page.ScreensPreserveInvariant | Alma.py:201-328 | the sidebar, the registration form and the tutorial keep the session invariant |
| Page.CreatorPreservesInvariant | Alma.py:385-399 | the entity creator keeps the session invariant |
| Page.CodeRunnerPreservesInvariant | Alma.py:694-699 | the code runner's save keeps the session invariant |
| Page.ButtonsPreserveInvariant | Alma.py:427-551 | the entity list's buttons and the chat panel keep the session invariant |
| Page.StepPreservesInvariant | Alma.py:150-168 | every run keeps the session invariant, whatever queue it starts with |
| Page.MainPreservesInvariant | Alma.py:330-364 | the main interface keeps the session invariant whatever removal queue it drains |
| Page.RunTraceIsAtMostRerun | Alma.py:167-168 | the page registers no callbacks, so a run ends either quietly or with the rerun alone |
| Page.SidebarButtons | Alma.py:216-223 | the help toggle flips the help flag and never reruns; the reset button empties the registry, reports the reset and reruns |
| Page.RegistrationStoresStrippedName | Alma.py:316-328 | before registration, an all-whitespace name is refused with no change and no rerun; any other name is stored stripped with the level and id, and the page reruns |
| Page.SubmitPromptRecordsExchange | Alma.py:544-622 | with a service chosen, an all-whitespace prompt changes nothing; any other prompt is stripped and recorded with the reply, and the page reruns |
| Page.OnlyCreatorHandlesCreate | Alma.py:376-399 | the creator's form is ignored by the sidebar, the list, the chat panel and the code runner |
| Page.RefusedCreationChangesNothing | Alma.py:386-393 | refused creator input leaves the session exactly as it was, with no rerun |
| Page.AcceptedCreationInserts | Alma.py:395-399 | accepted input stores one new full-energy, active entity under the fresh id, keeps every other entity, reports its stripped name, and ends the run with the rerun |
| Page.LibraryPromptOpensChat | Alma.py:656-660 | a library button fills the template, sets the current label to its pick, leaves the connection map alone and reruns, so the chat form opens even when no service is connected |
| Page.CreateTestEntity | Alma.py:395-399 | an entity named `Test` with no code is created as text, at energy 100, active |
| Page.RunNeverRemovesAsWritten | Alma.py:401-438 | as written, no run loses an entity except through the reset button |
| Page.RemovalIsLostAsWritten | Alma.py:401-438 | as written, "remove" reports the removal and reruns, yet the entity is still there after that run and after the run the rerun starts |
| Page.RemovalTakesEffectCorrected | Alma.py:401-438 | with the queue kept across runs, the next run removes exactly the queued entity and empties the queue |
| Page.CorrectedRunDrains | Alma.py:401-438 | with the queue kept across runs, a run that draws the list and adds no entity ends with none of the queued ids |
| Page.ReachableSessionsKeepInvariant | Alma.py:150-168 | every session reached by a sequence of runs keeps the invariant; every entity has energy in [0, 100] and is dormant exactly at 0 |

## Left out

- Rendering: the HTML, CSS, markdown, Plotly 3D universe and help text only draw things.
- The prompt catalogue of `show_prompt_library` is not transcribed. The prompt a "use this prompt" button stores is an input of the `UsePrompt` action, and so is the service its `np.random.choice` picks.
- Random positions (`np.random.uniform`), `uuid4` and `datetime.now` become inputs of the actions. Entity ids are assumed fresh, and the saved app's tag is four hexadecimal characters.
- The user id is the first 16 hexadecimal characters of the SHA-256 of the raw name followed by `time.time()` (line 323). The clock reading makes it an input of `Register`, constrained to 16 hexadecimal characters. SHA-256 itself is not modelled.
- `time.sleep` in registration has no effect on state.
- `run_code` and the stop button are left out. They write a temporary file, start a subprocess on a random port and open a browser, all of it I/O.
- The reply of `process_ai_response` is an opaque input. The joke pick (randomness), the OpenAI call and its connection-error fallback (network) cannot be computed. The Claude, Gemini and default replies at lines 598-607 are deterministic f-strings of the prompt, and the default one also of the label; they are left out along with the reply, so no property is stated about their wording.
- Chat.ProcessAIResponse: the `"piada"` dispatch at line 571 is not modelled, because it only chooses among reply sources, and the reply is taken as given.
- Text.Lower: only ASCII letters change case. Python's full Unicode case mapping is not modelled.
- Text.Capitalize: only ASCII letters change case, as in `Text.Lower`.
- `code_output` is written by `run_code` and by the stop button (line 708). Both are left out with `run_code`, and nothing modelled reads `code_output`.
- `show_quantum_universe` and the code preview expander are read-only.
- What a rerun callback does is not modelled. Callbacks are labels, and the page registers none.
- The post-rerun callbacks after `st.rerun()` cannot run. No property is stated about them except that they never appear in a trace.
- The status texts in `last_interaction` (f-strings in Portuguese) are a structured `Message`. The wording is not modelled.

## Findings

| source | as written | input that shows it | evidently intended | confidence | as-written member | corrected member |
|---|---|---|---|---|---|---|
| Alma.py:401-438 | `pending_operations` is created empty in every run. The list drains it at line 405, before any remove button can append to it. The removal queued at line 434 is dropped when the run ends in `st.rerun()`. | On the main interface, press "Remover" for an existing entity. The message says it was removed, yet the entity is still listed after the rerun. | The queued removal is applied at the start of the next listing pass. | not executed | Page.RemovalIsLostAsWritten | Page.RemovalTakesEffectCorrected |

The finding uses two run functions. `Page.Run` models the script as written. `Page.RunCorrected` keeps the queue across runs, so the next listing drains it. `Page.RunNeverRemovesAsWritten` generalises the as-written behaviour: only the reset button ever removes entities.

The intended behaviour is read off the script itself. The comment at line 404 says pending operations are processed before the list is shown. The comment at line 433 says the removal is put in the queue. The message at line 437 tells the user the entity was removed from the Matrix. Together they describe a queue that outlives the run that fills it, which is what `Page.RunCorrected` keeps.

The "save as entity" button of the code runner stores code without the `ID:` check that the creator applies. `Registry.SaveSkipsMetadataCheck` states this as the behaviour of the code. It is not listed as a finding, because nothing shows that the check was meant to apply there.
