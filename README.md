# Client-side logic of the simulation CMS front end

The system is a role-based React front end for a learning platform built around
*simulations*. Educators write simulations made of tasks and subtasks, administrators
moderate them, and students work through the tasks' question sets. Most of the front end
is layout and remote calls. This project models, in Dafny, the logic that the pages run
on the client:

- **Simulation moderation** (`SimulationList`): six integer statuses; the role-gated
  buttons of a row; and the approve, reject, approve-delete, reject-delete,
  request-delete and educator-delete handlers. Each handler steps the page state (dialog
  flags, current record, notice text, the row list) given the outcome of its call. The
  `{result, message}` response envelope and the error-text rule are in `ApiEnvelope`.
- **Educator accounts** (`EducatorList`): approving or rejecting a sign-up, the
  optimistic update of `account.status`, and the delete guard.
- **The task hierarchy** (`TaskList`): the two passes of `hierarchicalData`. Tasks are
  stored in an insertion-ordered map, subtasks are attached to their parent, and
  unmatched subtasks become orphans. The model also covers the `#`, question-count and
  error-count columns and the row buttons.
- **The task form** (`TaskForm`): kind detection, the automatic name, the introduction
  sections (add, remove, update, normalise, parse), the submitted payload and the
  preview's line formatter.
- **The simulation form** (`SimulationForm`): `isJsonString`, `parseJsonData` with its
  `<h2>` extraction and multi-section HTML, the plain-text to HTML bullet conversion, the
  clean-up of trailing empty paragraphs, and the JSON written on save.
- **The student's simulation page** (`StudentSimulation`): tasks grouped under their
  parents, the start links and the level badge.
- **The educator's review page** (`ReviewDetail`): answers grouped by task with per-task
  counts, the task outline, and creating, updating or deleting the review.
- **The exercise session** (`Exercise`): bounded navigation, the answers map, the
  judging of each answer against the first option marked correct, and the submission
  loop with its counts.
- **The task page before an exercise** (`TaskDetail`): the progress status, the started
  flag, the start guard, the reset and the material icon.
- **Forms and validators**:
  - `AdminForm`: the duplicate checks;
  - `Register`: the registration rules and the register-then-code flow;
  - `ProfileForm`: the profile payload per role;
  - `TaskQuestion`: the question list's option display.
- **Shared definitions**:
  - `MasterData`: the option tables;
  - `JsValue`: JavaScript values, with truthiness, property access, spread and `delete`;
  - `Text`: `trim`, `split` and `join`, and the decimal printing of numbers.

Parsed JSON, the signed-in user's role and the outcome of every remote call are explicit
inputs. The pages that step state are classes whose methods state the new state in
full. Pure rules are functions, and the properties the pages rely on are lemmas.

## Model

| member | source | states |
|---|---|---|
| MasterData.FromEntriesFindsEveryRow | src/modules/simulation/simulation/index.js:51-52 | for a table with distinct values, the `Object.fromEntries` dictionary has exactly the table's values as keys, and each key maps to its row |
| MasterData.LookupChoiceFinds | src/modules/simulation/simulation/index.js:535 | `statusMap[status] \|\| {}` finds a row exactly for the values the table lists, and the row found carries that value |
| MasterData.SimulationStatusTag | src/constants/masterData.js:71-75 | the simulation status table lists only ACTIVE, WAITING_APPROVE and WAITING_APPROVE_DELETE, so PENDING, LOCK and REJECT rows get an empty tag |
| MasterData.TableValues | src/constants/masterData.js:53-141 | the educator status, level, question type and task kind tables hold exactly {1, 2, 0, -2}, {1, 2, 3}, {1, 2, 3} and {TASK, SUBTASK}, each without repetition |
| ApiEnvelope.ResponseNotice | src/modules/simulation/simulation/index.js:112-133 | a success notice exactly when `result === true`: exactly `successMessage + ": " + message` when the server sends a message and the success text alone otherwise; otherwise the server's message, or the error text |
| ApiEnvelope.FailureText | src/modules/simulation/simulation/index.js:140-153 | the error text is the first non-empty one of the response body's message, the error's own message and the default |
| ApiEnvelope.Settle | src/modules/simulation/simulation/index.js:112-153 | a success notice exactly when the success callback runs; a failed call shows the error text |
| SimulationList.OfferedActions | src/modules/simulation/simulation/index.js:405-605 | admins get approve and reject only at status 2, and approve-delete and reject-delete only at status 3. Educators get educator-delete only at status 2 and request-delete only outside {2, 3}, so at most one delete and none at 3. An educator with update permission sees edit exactly when the status is not 3 |
| SimulationList.ButtonDrawn | src/modules/simulation/simulation/index.js:405-525 | each role's factory draws only its own moderation or delete buttons, no educator delete while a deletion waits, and always edit and tasks |
| SimulationList.ColumnAllows | src/modules/simulation/simulation/index.js:583-605 | the educator's guard table never allows a moderation action, the administrator's never an educator's delete, and an educator's edit never while a deletion waits |
| SimulationList.WithStatus | src/modules/simulation/simulation/index.js:298-302 | rows with the id take the new status; every other row, and every other field, is unchanged; the length is kept |
| SimulationList.WithoutId | src/modules/simulation/simulation/index.js:388 | the rows left are exactly those whose id differs, and as many rows go as carry the id |
| SimulationList.WithoutIdKeepsOrder | src/modules/simulation/simulation/index.js:388 | removal distributes over concatenation, so the remaining rows keep their order |
| SimulationList.WithoutAbsentId | src/modules/simulation/simulation/index.js:388 | removing an id that no row carries changes nothing |
| SimulationList.RequestDeleteHandsOver | src/modules/simulation/simulation/index.js:340-347 | after a successful request-delete the row offers an educator no delete, and offers an admin both approve-delete and reject-delete |
| SimulationList.RejectDeleteRestores | src/modules/simulation/simulation/index.js:296-302 | after a successful reject-delete the row offers no moderation action, and an educator can request deletion again |
| SimulationList.NoticeToSend | src/modules/simulation/simulation/index.js:192 | the notice sent is never empty: the trimmed text, or a single space for blank text |
| SimulationList.SimulationListPage.constructor | src/modules/simulation/simulation/index.js:38-42 | both dialogs closed, no current record, empty notice |
| SimulationList.SimulationListPage.ShowApproveModal | src/modules/simulation/simulation/index.js:167-171 | remembers the row, clears the notice and opens the approve dialog; nothing else changes |
| SimulationList.SimulationListPage.ShowRejectModal | src/modules/simulation/simulation/index.js:174-178 | the same for the reject dialog |
| SimulationList.SimulationListPage.EditNotice | src/modules/simulation/simulation/index.js:669 | only the notice text changes |
| SimulationList.SimulationListPage.CancelApproveModal | src/modules/simulation/simulation/index.js:656-660 | closes the approve dialog and forgets the row and the notice |
| SimulationList.SimulationListPage.CancelRejectModal | src/modules/simulation/simulation/index.js:678-682 | closes the reject dialog and forgets the row and the notice |
| SimulationList.SimulationListPage.HandleApprove | src/modules/simulation/simulation/index.js:183-208 | nothing happens without a current record. Otherwise the approval is sent with the normalised notice and the list itself is not edited. Only a success reloads it. Either way the dialog closes and the record and notice are cleared |
| SimulationList.SimulationListPage.HandleReject | src/modules/simulation/simulation/index.js:213-238 | the same steps against the reject endpoint |
| SimulationList.SimulationListPage.HandleApproveDelete | src/modules/simulation/simulation/index.js:243-273 | nothing for a missing id or a declined confirmation; otherwise the call is sent and a success reloads the list without editing it |
| SimulationList.SimulationListPage.HandleRejectDelete | src/modules/simulation/simulation/index.js:278-314 | after confirmation, a success sets the rows with the id back to ACTIVE and leaves every other row as it was |
| SimulationList.SimulationListPage.HandleRequestDelete | src/modules/simulation/simulation/index.js:322-356 | sent without confirmation; a success sets the rows with the id to WAITING_APPROVE_DELETE and changes nothing else |
| SimulationList.SimulationListPage.HandleEducatorDelete | src/modules/simulation/simulation/index.js:362-400 | after confirmation, a success removes exactly the rows with the id, keeping the rest in order |
| EducatorList.OfferedActions | src/modules/user/educator/index.js:225-317 | approve and reject only for an account waiting for approval and with the permission; delete only with the permission and never for the super administrator; edit with the update permission |
| EducatorList.WithAccountStatus | src/modules/user/educator/index.js:133-145 | rows with the id get the new `account.status`; every other property of `account`, the row's other fields and all other rows are unchanged |
| EducatorList.DecisionIsFinal | src/modules/user/educator/index.js:131-258 | after a successful approval or rejection the row no longer offers approve or reject |
| EducatorList.EducatorListPage.constructor | src/modules/user/educator/index.js:32-35 | the page starts with the given rows and no notice |
| EducatorList.EducatorListPage.HandleApprove | src/modules/user/educator/index.js:113-157 | nothing for a falsy id or a declined confirmation. A result other than `true` leaves the list unchanged, and a success marks the account active |
| EducatorList.EducatorListPage.HandleReject | src/modules/user/educator/index.js:160-205 | the same steps; a success marks the account rejected |
| TaskList.FindKey | src/modules/simulation/task/index.js:204 | the position of the first slot with the key, or -1 exactly when the key is absent |
| TaskList.MapSet | src/modules/simulation/task/index.js:193-214 | `Map.set`: an existing key keeps its place and takes the new entry, a new key goes last, and keys stay unique |
| TaskList.MapValues | src/modules/simulation/task/index.js:218 | the entries in slot order |
| TaskList.Subtasks | src/modules/simulation/task/index.js:197-199 | exactly the SUBTASK rows; with `TaskList.SubtasksAppend` they keep their input order and repetitions |
| TaskList.Tasks | src/modules/simulation/task/index.js:192-196 | exactly the TASK rows; with `TaskList.TasksAppend` they keep their input order and repetitions |
| TaskList.SubtasksAppend | src/modules/simulation/task/index.js:197-199 | the subtasks of two row lists in a row are the first list's followed by the second's, so input order is kept |
| TaskList.TasksAppend | src/modules/simulation/task/index.js:192-196 | the TASK rows of two row lists in a row are the first list's followed by the second's, so input order is kept |
| TaskList.HierarchicalData | src/modules/simulation/task/index.js:185-219 | the two loops compute the table that `Hierarchy` describes |
| TaskList.CollectRows | src/modules/simulation/task/index.js:191-200 | the first loop: TASK rows stored in the map without children, SUBTASK rows set aside in order |
| TaskList.AttachSubtasks | src/modules/simulation/task/index.js:202-216 | the second loop places each subtask in turn |
| TaskList.ChildrenOf | src/modules/simulation/task/index.js:204-212 | a task's children are exactly the subtasks naming it as parent, with `parent` rewritten to the task's id and name |
| TaskList.Orphans | src/modules/simulation/task/index.js:213-215 | exactly the subtasks whose parent id is falsy or names no task; with `TaskList.OrphansAppend` they keep their input order |
| TaskList.OrphansAppend | src/modules/simulation/task/index.js:213-215 | the orphans of two lists in a row are the first list's followed by the second's, so input order is kept |
| TaskList.FirstPassStoresTasks | src/modules/simulation/task/index.js:191-200 | the first pass stores the TASK rows in input order, each without children |
| TaskList.PlaceAttached | src/modules/simulation/task/index.js:204-212 | a subtask whose parent id (`parent.id`, else `parentId`) is a task's joins that task's children, reparented, and nothing else moves |
| TaskList.PlaceOrphan | src/modules/simulation/task/index.js:213-214 | a subtask without a matching task is stored last, on its own |
| TaskList.SecondPassShape | src/modules/simulation/task/index.js:202-216 | after the second pass, every task in order holds its children, followed by the orphans in order |
| TaskList.HierarchyShape | src/modules/simulation/task/index.js:185-219 | every TASK row appears once at the top level, in input order, with its children, ahead of the orphans; rows of other kinds are dropped |
| TaskList.HierarchySlots | src/modules/simulation/task/index.js:218 | the table is the values of the task slots followed by the orphan slots |
| TaskList.EmptyHierarchy | src/modules/simulation/task/index.js:186 | no rows, no table |
| TaskList.AttachCount | src/modules/simulation/task/index.js:202-212 | a subtask attaches to at most one task |
| TaskList.SubtasksConserved | src/modules/simulation/task/index.js:202-216 | every subtask ends up either as an orphan or as exactly one task's child |
| TaskList.Conservation | src/modules/simulation/task/index.js:191-218 | top-level entries plus all children equal TASK rows plus SUBTASK rows |
| TaskList.FindEntry | src/modules/simulation/task/index.js:239 | `findIndex`: the first position whose row has the id, or -1 when none does |
| TaskList.IndexNumbersTasks | src/modules/simulation/task/index.js:237-243 | the `#` column numbers the TASK rows 1, 2, 3, ... in input order |
| TaskList.IndexCell | src/modules/simulation/task/index.js:237-243 | '' for rows other than TASK. A TASK row gets one more than the position of the first table entry with its id, and 0 exactly when the table has none |
| TaskList.CountCell | src/modules/simulation/task/index.js:291-302 | '-' for a TASK row; for a SUBTASK row the value, or 0 when it is missing |
| TaskList.OfferedActions | src/modules/simulation/task/index.js:97-330 | create-subtask only on TASK rows for an educator with create permission; questions only on SUBTASK rows; view-details only for non-educators; edit and delete only for educators with the permission |
| StudentSimulation.TopLevel | src/modules/student/simulation/SimulationDetailPage.js:141 | exactly the tasks without a parent; with `StudentSimulation.TopLevelAppend` they keep the list order and repetitions |
| StudentSimulation.ChildrenOf | src/modules/student/simulation/SimulationDetailPage.js:142-146 | exactly the tasks whose parent id is the given one; with `StudentSimulation.ChildrenOfAppend` they keep the list order |
| StudentSimulation.TopLevelAppend | src/modules/student/simulation/SimulationDetailPage.js:141 | the top-level tasks of two lists in a row are the first list's followed by the second's |
| StudentSimulation.ChildrenOfAppend | src/modules/student/simulation/SimulationDetailPage.js:142-146 | the children found in two lists in a row are the first list's followed by the second's |
| StudentSimulation.GroupTasksByParent | src/modules/student/simulation/SimulationDetailPage.js:140-148 | group `i` is the `i`-th top-level task with its children; `StudentSimulation.GroupsInListOrder` shows both follow the list order |
| StudentSimulation.GroupsInListOrder | src/modules/student/simulation/SimulationDetailPage.js:140-148 | for a list made of `a` then `b`, the groups of `a`'s top-level tasks come first, in order, then `b`'s; in each group `a`'s children come before `b`'s |
| StudentSimulation.TopLevelExactly | src/modules/student/simulation/SimulationDetailPage.js:140-148 | a task heads a group exactly when it has no parent |
| StudentSimulation.ChildPlacement | src/modules/student/simulation/SimulationDetailPage.js:140-148 | a subtask is in a group exactly when its parent is that group's task; one whose parent is not listed is shown nowhere |
| StudentSimulation.StartTargets | src/modules/student/simulation/SimulationDetailPage.js:340-364 | a group without children opens its own task; otherwise one link per child, in order |
| StudentSimulation.StartTargetsAreTasks | src/modules/student/simulation/SimulationDetailPage.js:132-134 | every start link opens a task of the simulation; a group with children links to an id only through a child carrying it |
| StudentSimulation.LevelColor | src/modules/student/simulation/SimulationDetailPage.js:114-121 | 1, 2, 3 are green, orange, red; anything else is 'default' |
| StudentSimulation.LevelText | src/modules/student/simulation/SimulationDetailPage.js:123-130 | 1, 2, 3 are Dễ, Trung bình, Khó; anything else is 'Chưa xác định' |
| StudentSimulation.LevelsAgreeWithTable | src/modules/student/simulation/SimulationDetailPage.js:114-130 | a number gets a real colour and text exactly when the level table lists it |
| TaskForm.EmptySectionIsSection | src/modules/simulation/task/TaskForm.js:52-54 | the default section has both properties, with an empty title |
| TaskForm.WithoutIndex | src/modules/simulation/task/TaskForm.js:149 | for an index in range, only that element goes and the rest keep their order; otherwise the list is unchanged |
| TaskForm.KeepSectionMeaning | src/modules/simulation/task/TaskForm.js:162-164 | a section is kept exactly when its trimmed title or trimmed content is not empty |
| TaskForm.KeepSection | src/modules/simulation/task/TaskForm.js:162-164 | a section whose title and content are text always gets a verdict, so only other values make `trim` throw |
| TaskForm.NormalizeIntroduction | src/modules/simulation/task/TaskForm.js:161-167 | the sections worth keeping, and only those; it throws exactly when a section's title or content is not text. `TaskForm.NormalizeAppend` and `TaskForm.NormalizeOne` fix the result and its order |
| TaskForm.NormalizeAppend | src/modules/simulation/task/TaskForm.js:161-167 | two lists in a row normalise to the first's kept sections followed by the second's, and the whole throws exactly when a part does |
| TaskForm.NormalizeOne | src/modules/simulation/task/TaskForm.js:161-167 | one section normalises to itself when kept, to nothing when blank, and throws when a field it reads is not text |
| TaskForm.NormalizeKeepsKept | src/modules/simulation/task/TaskForm.js:161-167 | sections that are all worth keeping pass through unchanged, in order |
| TaskForm.NormalizeIdempotent | src/modules/simulation/task/TaskForm.js:161-167 | normalising twice changes nothing more |
| TaskForm.TextSectionsNormalize | src/modules/simulation/task/TaskForm.js:161-167 | sections typed into the editor never make it throw |
| TaskForm.ParseIntroduction | src/modules/simulation/task/TaskForm.js:223-245 | never empty and holds only sections; the default for empty input, a parse failure or a non-list; otherwise the sections of the parsed list (a string) or of the value itself (an already-parsed list), or the default when none survive |
| TaskForm.SectionsOf | src/modules/simulation/task/TaskForm.js:236-238 | exactly the objects that carry both `title` and `content`; with `TaskForm.SectionsOfAppend` they keep the list order |
| TaskForm.SectionsOfAppend | src/modules/simulation/task/TaskForm.js:236-238 | the sections kept from two lists in a row are the first list's followed by the second's |
| TaskForm.SectionsOfKeepsSections | src/modules/simulation/task/TaskForm.js:236-238 | a list of sections passes the filter whole |
| TaskForm.IntroductionRoundTrip | src/modules/simulation/task/TaskForm.js:169-245 | the sections the form saves are the sections it loads back |
| TaskForm.TrimmedOrEmpty | src/modules/simulation/task/TaskForm.js:176-182 | the trimmed text, or '' when the field was never filled in |
| TaskForm.SubmitPayload | src/modules/simulation/task/TaskForm.js:169-204 | no payload exactly when normalising throws. The introduction is '' exactly when no section survives, and otherwise the survivors. `parentId` is only for a SUBTASK: from the navigation state first, then the loaded parent. `maxErrors` defaults to 0. The name, title, description and content are the trimmed values or '', and the simulation id and the three paths are passed as given |
| TaskForm.AutoName | src/modules/simulation/task/TaskForm.js:110-111 | "Nhiệm vụ " followed by decimal digits that read back as the number |
| TaskForm.TaskFormState.constructor | src/modules/simulation/task/TaskForm.js:44-54 | one empty section, no kind, no name |
| TaskForm.TaskFormState.DetectKind | src/modules/simulation/task/TaskForm.js:62-95 | a new record with a parent in the navigation state becomes a SUBTASK named after the parent; any other new record becomes a TASK; an edited record takes the loaded kind |
| TaskForm.TaskFormState.GenerateAutoName | src/modules/simulation/task/TaskForm.js:98-125 | only a new, not yet named TASK is named, as task number (TASK rows + 1) |
| TaskForm.TaskFormState.LoadDetail | src/modules/simulation/task/TaskForm.js:247-265 | the stored name and the parsed introduction are shown, and no automatic name follows |
| TaskForm.TaskFormState.AddSection | src/modules/simulation/task/TaskForm.js:143-146 | exactly one empty section more, at the end |
| TaskForm.TaskFormState.RemoveSection | src/modules/simulation/task/TaskForm.js:148-152 | only that section goes and the order is kept; an emptied list becomes one empty section, so the list is never empty |
| TaskForm.TaskFormState.UpdateSection | src/modules/simulation/task/TaskForm.js:154-159 | only that field of that section changes |
| TaskForm.FormatLine | src/modules/simulation/task/TaskForm.js:497-507 | blank lines give nothing. A line whose trimmed form starts with '•' is a bullet, and exactly those are; its text is the rest after the marker, trimmed. Any other line is a paragraph of its trimmed text |
| TaskForm.FormatContent | src/modules/simulation/task/TaskForm.js:494-510 | nothing for empty content, otherwise one block per line, in order |
| SimulationForm.IsJsonString | src/modules/simulation/simulation/SimulationForm.js:85-95 | true exactly for a string whose trimmed form opens with '{' or '[' and that parses; never for blank text |
| SimulationForm.CloseAt | src/modules/simulation/simulation/SimulationForm.js:105-107 | the lazy `.*?` stops at the first `</h2>` before any line terminator |
| SimulationForm.FindH2Leftmost | src/modules/simulation/simulation/SimulationForm.js:105-107 | the `<h2>…</h2>` match found is the leftmost, and when none is found there is none |
| SimulationForm.FindH2 | src/modules/simulation/simulation/SimulationForm.js:105-107 | a match found starts at or after the scan position, opens with `<h2>`, and its `</h2>` is the first one on that line |
| SimulationForm.SplitHeading | src/modules/simulation/simulation/SimulationForm.js:104-108 | the title is the text between the first matched `<h2>` and `</h2>`, and the content is the input without that heading, trimmed |
| SimulationForm.ReplaceNewlines | src/modules/simulation/simulation/SimulationForm.js:143 | no line break is left |
| SimulationForm.NewlinesRoundTrip | src/modules/simulation/simulation/SimulationForm.js:143 | on text without '<' the replacement loses nothing: every `<br>` maps back to a line break |
| SimulationForm.SectionHtml | src/modules/simulation/simulation/SimulationForm.js:136-145 | an `<h3>` heading only for a titled section after the first, then the content's HTML; no piece for a `null` section |
| SimulationForm.ContentHtml | src/modules/simulation/simulation/SimulationForm.js:139-145 | HTML content as it is, plain text as a paragraph with `<br>` for line breaks, nothing for empty content |
| SimulationForm.SectionsHtmlConcat | src/modules/simulation/simulation/SimulationForm.js:135-146 | when every section converts, the combined HTML is exactly the sections' pieces joined in list order |
| SimulationForm.SectionsHtmlFails | src/modules/simulation/simulation/SimulationForm.js:135-146 | combining fails exactly when some section throws |
| SimulationForm.SectionsHtml | src/modules/simulation/simulation/SimulationForm.js:135-146 | combined HTML exists only when every section converts |
| SimulationForm.CombineSections | src/modules/simulation/simulation/SimulationForm.js:134-146 | the `forEach` accumulates the combined HTML section by section |
| SimulationForm.ParseJsonData | src/modules/simulation/simulation/SimulationForm.js:98-159 | Falsy input gives empty fields. Non-JSON text with '<' gives the heading split, and other non-JSON text becomes the content. An object or one-element list gives its own fields. A longer list gives the first title and the combined HTML. Anything else gives empty fields, and an error inside the `try` keeps the input as content |
| SimulationForm.StripMarker | src/modules/simulation/simulation/SimulationForm.js:182 | removes the one leading marker and the white space after it |
| SimulationForm.NonBlankLines | src/modules/simulation/simulation/SimulationForm.js:171 | exactly the lines that are not blank; with `SimulationForm.NonBlankLinesAppend` they keep their order |
| SimulationForm.NonBlankLinesAppend | src/modules/simulation/simulation/SimulationForm.js:171 | the non-blank lines of two lists in a row are the first list's followed by the second's |
| SimulationForm.ContentToHtml | src/modules/simulation/simulation/SimulationForm.js:162-198 | empty stays empty and only empty gives empty; HTML is kept as it is |
| SimulationForm.AddLine | src/modules/simulation/simulation/SimulationForm.js:176-190 | one line's tags are appended and `inList` follows the line |
| SimulationForm.AddLines | src/modules/simulation/simulation/SimulationForm.js:175-191 | the loop's `html` is the rendering of all lines' tags |
| SimulationForm.ConvertContentToHtml | src/modules/simulation/simulation/SimulationForm.js:162-198 | the loop computes `ContentToHtml`, and is never empty for non-empty input |
| SimulationForm.StepProper | src/modules/simulation/simulation/SimulationForm.js:175-191 | one line keeps the markup proper and leaves a list open exactly when it is a bullet |
| SimulationForm.ListsBalanced | src/modules/simulation/simulation/SimulationForm.js:171-197 | every `<ul>` opened is closed, lists never nest, and every `<li>` stands inside a list |
| SimulationForm.OneBlockPerLine | src/modules/simulation/simulation/SimulationForm.js:171-195 | each non-blank line gives exactly one item or paragraph, in order |
| SimulationForm.StripLeavesPrefix | src/modules/simulation/simulation/SimulationForm.js:208 | what is kept is a prefix; what goes is a run of `<p><br></p>` and `<p></p>`; the rest does not end with one |
| SimulationForm.StripTrailingParagraphs | src/modules/simulation/simulation/SimulationForm.js:208 | no longer than the input, and what is left ends in neither `<p><br></p>` nor `<p></p>` |
| SimulationForm.CleanQuillHtml | src/modules/simulation/simulation/SimulationForm.js:201-211 | '' for empty input or exactly `<p><br></p>`; otherwise the trimmed text without its whole trailing run of empty paragraphs |
| SimulationForm.DescriptionValue | src/modules/simulation/simulation/SimulationForm.js:246-249 | `{title, content}` with the cleaned content |
| SimulationForm.OverviewValue | src/modules/simulation/simulation/SimulationForm.js:251-254 | a one-element list holding the same object |
| SimulationForm.LoadField | src/modules/simulation/simulation/SimulationForm.js:222-236 | the editor shows the parsed title and the parsed text content converted to HTML, '' for falsy content, and nothing otherwise |
| SimulationForm.DescriptionRoundTrip | src/modules/simulation/simulation/SimulationForm.js:213-254 | a saved description loads back as the same title and cleaned content |
| SimulationForm.OverviewRoundTrip | src/modules/simulation/simulation/SimulationForm.js:213-254 | a saved overview loads back as the same title and cleaned content |
| SimulationForm.JsonTextLoads | src/modules/simulation/simulation/SimulationForm.js:85-95 | stored text that starts with a bracket and parses is read as JSON |
| ReviewDetail.AnswersOf | src/modules/reviewSubmission/StudentReviewDetailPage.js:91-100 | exactly the answers on the task, in order |
| ReviewDetail.GroupAnswersByTask | src/modules/reviewSubmission/StudentReviewDetailPage.js:91-100 | a group for every task that has an answer, holding that task's answers in order; answers without a task are dropped |
| ReviewDetail.AddToGroup | src/modules/reviewSubmission/StudentReviewDetailPage.js:94-98 | the task's group is created when missing and the answer is pushed last; other groups are unchanged |
| ReviewDetail.GetTaskStats | src/modules/reviewSubmission/StudentReviewDetailPage.js:103-109 | total is the group's size, and correct is at most total and is 0 exactly when no answer of the group is marked correct; the percentage is 0 exactly when total is 0 |
| ReviewDetail.StatsCountTaskAnswers | src/modules/reviewSubmission/StudentReviewDetailPage.js:91-109 | the counts shown for a task are those of the student's answers on it |
| ReviewDetail.MainTasks | src/modules/reviewSubmission/StudentReviewDetailPage.js:167 | exactly the kind-1 rows; with `ReviewDetail.MainTasksAppend` they keep the list order |
| ReviewDetail.SubTasks | src/modules/reviewSubmission/StudentReviewDetailPage.js:168 | exactly the kind-2 rows under the parent; with `ReviewDetail.SubTasksAppend` they keep the list order |
| ReviewDetail.MainTasksAppend | src/modules/reviewSubmission/StudentReviewDetailPage.js:167 | the main tasks of two lists in a row are the first list's followed by the second's |
| ReviewDetail.SubTasksAppend | src/modules/reviewSubmission/StudentReviewDetailPage.js:168 | the subtasks of two lists in a row are the first list's followed by the second's |
| ReviewDetail.SubTasksDisjoint | src/modules/reviewSubmission/StudentReviewDetailPage.js:168 | no subtask is listed under two parents |
| ReviewDetail.DisplayName | src/modules/reviewSubmission/StudentReviewDetailPage.js:83 | the full name, or the user name when there is none |
| ReviewDetail.ErrorText | src/modules/reviewSubmission/StudentReviewDetailPage.js:130-133 | never empty: the error's message, or the default |
| ReviewDetail.ReviewEditor.LoadExisting | src/modules/reviewSubmission/StudentReviewDetailPage.js:70-75 | an existing review sets the id and the form text |
| ReviewDetail.ReviewEditor.SaveReview | src/modules/reviewSubmission/StudentReviewDetailPage.js:111-138 | Blank text is refused without a call. With a review id the request is an update `{id, content}`, otherwise a creation `{simulationId, username, content}`. A completed call reloads the review |
| ReviewDetail.ReviewEditor.DeleteReviewConfirmed | src/modules/reviewSubmission/StudentReviewDetailPage.js:140-164 | after confirmation the current review is deleted; on completion the review id and the form are cleared |
| Exercise.ParseOptions | src/modules/student/exercise/DoExercisePage.js:75-83 | options text that parses gives its value, unparseable text gives [], and no text changes nothing |
| Exercise.ParseAll | src/modules/student/exercise/DoExercisePage.js:75-83 | every question of the list is parsed, in place |
| Exercise.FindCorrect | src/modules/student/exercise/DoExercisePage.js:191 | `find` gives the first option marked correct, unless a `null` element comes first (a TypeError); none when no option is marked |
| Exercise.Judge | src/modules/student/exercise/DoExercisePage.js:191-192 | an answer is judged correct exactly when some option is marked correct and the answer equals the first such option's `key`; no option marked gives `undefined` |
| Exercise.UnparseableNeverCorrect | src/modules/student/exercise/DoExercisePage.js:78-81 | a question whose options did not parse is never judged correct |
| Exercise.Step | src/modules/student/exercise/DoExercisePage.js:186-210 | one turn: nothing once the loop has thrown or for an unanswered question. An answered question throws exactly when judging it fails or the call is rejected. When it can be judged, exactly one request is sent, carrying the question id, the progress id, the answer and its verdict; it is recorded with that verdict exactly when the reply is accepted |
| Exercise.Submission | src/modules/student/exercise/DoExercisePage.js:186-210 | the whole loop in order records no more than it sends and sends no more than there are questions |
| Exercise.CountCorrect | src/modules/student/exercise/DoExercisePage.js:216 | the correct count is at most the number of recorded answers |
| Exercise.SendAnswers | src/modules/student/exercise/DoExercisePage.js:186-210 | the `for` loop over the questions computes exactly `Exercise.Submission`: the answers it sends and records, in order, and whether it stopped on a TypeError or a rejected `submitAnswer` |
| Exercise.SubmissionCounts | src/modules/student/exercise/DoExercisePage.js:186-216 | correct ≤ recorded ≤ sent ≤ answered ≤ questions, and a run to the end sends one answer per answered question |
| Exercise.RecordedAreAccepted | src/modules/student/exercise/DoExercisePage.js:186-210 | every recorded answer is the truthy answer to a listed question that the server accepted, with that question's verdict |
| Exercise.UnansweredIsMissing | src/modules/student/exercise/DoExercisePage.js:160 | the count shown before submitting is the number of questions without an answer |
| Exercise.ExerciseSession.UnansweredCount | src/modules/student/exercise/DoExercisePage.js:160 | never more than the number of questions, and all of them before any answer is chosen |
| Exercise.ExerciseSession.constructor | src/modules/student/exercise/DoExercisePage.js:38-45 | first question, no answers, nothing submitted |
| Exercise.ExerciseSession.FetchQuestions | src/modules/student/exercise/DoExercisePage.js:58-90 | on `result`, the listed questions with their options parsed; a falsy `result` changes nothing; a rejected call shows the error notice and keeps the questions |
| Exercise.ExerciseSession.FetchProgress | src/modules/student/exercise/DoExercisePage.js:92-109 | the progress is stored, and earlier answers are loaded only when its state is 2 |
| Exercise.ExerciseSession.LoadPreviousAnswers | src/modules/student/exercise/DoExercisePage.js:111-138 | earlier answers are shown as submitted and scored against their own number |
| Exercise.ExerciseSession.SetAnswer | src/modules/student/exercise/DoExercisePage.js:140-145 | only that question's answer changes |
| Exercise.ExerciseSession.Next | src/modules/student/exercise/DoExercisePage.js:147-151 | moves forward only before the last question, keeping 0 ≤ currentIndex ≤ max(0, n-1) |
| Exercise.ExerciseSession.Previous | src/modules/student/exercise/DoExercisePage.js:153-157 | moves back only after the first question, keeping the same bound |
| Exercise.ExerciseSession.SubmitAllAnswers | src/modules/student/exercise/DoExercisePage.js:181-235 | the loop sends exactly what `Exercise.Submission` sends. Run to the end, it shows the accepted answers, scores them against the number of questions and calls `completeTask`; the success notice only when that call succeeds, the error notice otherwise. A TypeError or a rejected `submitAnswer` stops it with the error notice and nothing else changed |
| TaskDetail.ProgressStatus | src/modules/student/task/TaskDetailPage.js:155-165 | no progress or state 0 is not started, 1 in progress, 2 finished, anything else unknown |
| TaskDetail.StartedAgreesWithStatus | src/modules/student/task/TaskDetailPage.js:105 | for states 0 to 2 the exercise counts as started exactly when the status is no longer "not started" |
| TaskDetail.ActionLabel | src/modules/student/task/TaskDetailPage.js:341-360 | start before starting; review for a finished exercise; continue otherwise |
| TaskDetail.TaskIcon | src/modules/student/task/TaskDetailPage.js:148-153 | video before file before image before the book |
| TaskDetail.ExercisePath | src/modules/student/task/TaskDetailPage.js:121 | the route under the simulation's tasks, ending in the task's `/exercise` |
| TaskDetail.TaskDetailState.constructor | src/modules/student/task/TaskDetailPage.js:41-45 | no questions, no progress, not started |
| TaskDetail.TaskDetailState.FetchQuestions | src/modules/student/task/TaskDetailPage.js:77-94 | on `result`, the number of questions listed |
| TaskDetail.TaskDetailState.FetchProgress | src/modules/student/task/TaskDetailPage.js:96-110 | on `result`, the returned record (or null) is stored, and the exercise counts as started exactly when a record came back whose state is above 0; the request counter is left to the restart |
| TaskDetail.TaskDetailState.StartExercise | src/modules/student/task/TaskDetailPage.js:116-122 | with no questions an error and no navigation; otherwise the exercise page |
| TaskDetail.TaskDetailState.RestartExercise | src/modules/student/task/TaskDetailPage.js:124-146 | after confirmation, a successful reset clears the started flag and fetches the progress again; a failed call shows an error |
| AdminForm.OwnContactsNoConflict | src/modules/user/admin/AdminForm.js:82-95 | an edited administrator may keep its own e-mail and phone |
| AdminForm.CreatingConflictsWithAnyRow | src/modules/user/admin/AdminForm.js:82 | when creating, any row with the same e-mail conflicts, as long as its id is set |
| AdminForm.SubmitPayload | src/modules/user/admin/AdminForm.js:114-122 | the form values with the uploaded avatar and a birthday that is formatted or `null`; nothing else changes |
| AdminForm.CheckErrors | src/modules/user/admin/AdminForm.js:69-79 | an error is written exactly on a conflict, and cleared otherwise |
| AdminForm.AdminFormState.LoadDetail | src/modules/user/admin/AdminForm.js:125-143 | the avatar shown is the record's |
| AdminForm.AdminFormState.UploadAvatar | src/modules/user/admin/AdminForm.js:38-54 | only an upload answered with `result === true` replaces the avatar and marks the form changed |
| AdminForm.AdminFormState.HandleSubmit | src/modules/user/admin/AdminForm.js:62-123 | The user name is checked only when creating, and e-mail and phone always. Each field's error is set or cleared on its own. Any conflict stops the submission with one error message; otherwise the payload is handed on |
| TaskQuestion.OptionText | src/modules/simulation/taskQuestion/index.js:116-124 | for an object, the first truthy of `content`, `text`, `option`, else ''; for anything else `String(opt)` |
| TaskQuestion.OptionCorrect | src/modules/simulation/taskQuestion/index.js:121-122 | correct exactly for an object with `answer === true` or `isCorrect === true` |
| TaskQuestion.ShownOptions | src/modules/simulation/taskQuestion/index.js:108-140 | only options with text are shown, each with its text and mark |
| TaskQuestion.ShownOptionsAppend | src/modules/simulation/taskQuestion/index.js:108-140 | showing distributes over concatenation, so the order is kept |
| TaskQuestion.ShownOptionsOne | src/modules/simulation/taskQuestion/index.js:127 | a single option is shown exactly when its text is not empty |
| TaskQuestion.PlainOptionNeverCorrect | src/modules/simulation/taskQuestion/index.js:123-124 | a text or number option is shown as its own text and is never marked correct |
| TaskQuestion.ParseOptions | src/modules/simulation/taskQuestion/index.js:98-155 | the placeholder for falsy, 'null', 'undefined' or unparseable input; otherwise the shown options of the non-empty list |
| TaskQuestion.PlaceholderExactly | src/modules/simulation/taskQuestion/index.js:98-155 | the placeholder exactly for those inputs, a non-list and an empty list |
| TaskQuestion.RowActionsFor | src/modules/simulation/taskQuestion/index.js:186-195 | edit and delete only for an educator holding the permission |
| TaskQuestion.AdminOnlyReads | src/modules/simulation/taskQuestion/index.js:189-195 | an administrator gets neither button, whatever its permissions |
| ProfileForm.InitialValues | src/modules/profile/ProfileForm.js:39-49 | the profile's own properties, the avatar from `avatar` or else `avatarPath`, and the birthday or `null` |
| ProfileForm.HandleFinish | src/modules/profile/ProfileForm.js:51-79 | Always `id`, `avatarPath` and a formatted-or-`null` birthday. An admin gets `fullName`, `oldPassword`, and `password` from the new password, with `fullname` passed through. Others get `fullname` and no `fullName`, with `oldPassword` and `password` passed through. There is never an `avatar`, `newPassword` or `confirmPassword`, and every other property passes through |
| ProfileForm.BasePayload | src/modules/profile/ProfileForm.js:53-58 | the spread values with `id`, `avatarPath` and the birthday set |
| ProfileForm.AdminFields | src/modules/profile/ProfileForm.js:60-65 | the administrator's three keys set, all else kept |
| ProfileForm.UserFields | src/modules/profile/ProfileForm.js:66-71 | `fullname` set and `fullName` removed, all else kept |
| ProfileForm.DropFormOnly | src/modules/profile/ProfileForm.js:74-76 | the form-only keys removed, all else kept |
| ProfileForm.AdminPayload | src/modules/profile/ProfileForm.js:60-76 | the administrator's payload on the base object |
| ProfileForm.UserPayload | src/modules/profile/ProfileForm.js:66-76 | the other users' payload on the base object |
| Register.LeadingDigits | src/modules/auth/register/index.js:167 | the length of the run of ASCII digits at the start |
| Register.PhoneAccepted | src/modules/auth/register/index.js:165-168 | accepted exactly when the text is 10 or 11 ASCII digits |
| Register.ConfirmAccepted | src/modules/auth/register/index.js:218-226 | with its `required` rule the confirmation passes exactly when it repeats a non-empty password |
| Register.ValidFormPassword | src/modules/auth/register/index.js:198-226 | a form that passes has a password of at least six characters, repeated exactly |
| Register.RegisterFlow.constructor | src/modules/auth/register/index.js:22-24 | the flow starts at the registration step |
| Register.RegisterFlow.SubmitRegister | src/modules/auth/register/index.js:30-52 | Nothing is sent unless every rule holds, and the payload carries the form's fields. Only a success moves to the code step, storing the e-mail and the returned `idHash`. Each outcome shows the registration hook's message (src/hooks/useRegisterEducator.js:16-31: the body's message or its default, and for a thrown error the response's message, the error's, or 'Lỗi không xác định') followed by the page's |
| Register.RegisterFlow.SubmitOtp | src/modules/auth/register/index.js:54-70 | nothing unless the code has six characters; the payload is exactly `{idHash, otp}`; a success leads to the login page |
| JsValue.LookupFindsLast | src/modules/profile/ProfileForm.js:51-58 | an absent property reads as `undefined`, and a present one as its last occurrence |
| JsValue.Assign | src/modules/profile/ProfileForm.js:53-58 | `{...target, [key]: v}` reads `v` at the key and the target elsewhere |
| JsValue.SetProperty | src/modules/profile/ProfileForm.js:60-67 | `obj[key] = v` changes only that key |
| JsValue.DeleteProperty | src/modules/profile/ProfileForm.js:70-76 | `delete obj[key]` removes that key and keeps every other one |
| JsValue.CountTruthy | src/modules/reviewSubmission/StudentReviewDetailPage.js:105 | `filter(a => a.isCorrect).length`, for the exercise results and the review answers alike: at most the length, 0 exactly when no flag is truthy, and the length exactly when all are |
| JsValue.ToJsStringPrimitives | src/modules/simulation/taskQuestion/index.js:123 | `String(v)` gives a string back unchanged, and prints a number as decimal digits (after a `-` when negative) that read back as the number |
| Text.TrimEmptyIffBlank | src/modules/reviewSubmission/StudentReviewDetailPage.js:112 | `trim()` gives '' exactly for blank text |
| Text.TrimShape | src/modules/simulation/task/TaskForm.js:176-182 | trimmed text neither begins nor ends with white space |
| Text.TrimStartSpec | src/modules/simulation/task/TaskForm.js:162-164 | the start of `trim`: what goes is a white-space prefix and what is left does not begin with white space |
| Text.TrimEndSpec | src/modules/simulation/task/TaskForm.js:162-164 | the end of `trim`: what goes is a white-space suffix and what is left does not end with white space |
| Text.JoinSplit | src/modules/simulation/simulation/SimulationForm.js:171 | `split` loses nothing: joining the parts gives the text back |
| Text.Split | src/modules/simulation/simulation/SimulationForm.js:171 | `split` always gives at least one part, and no part holds the separator |
| Text.NatToStringRoundTrip | src/modules/simulation/task/TaskForm.js:110-111 | the printed digits of a number read back as that number |

## Left out

- Rendering: JSX, component layout, tooltips, tags and the preview modal. Only the values a
  page computes for display are modelled.
- Remote calls: each call is an outcome parameter (`CallOutcome`, or a `result` flag with
  the returned data). The network, the fetch hooks, loading flags, and races between calls
  still in flight are not modelled. A reload after a success is counted (`reloads`,
  `progressFetches`, `completions`); it is not performed.
- Confirmation dialogs are a `confirmed` parameter. Notices are values appended to a
  `notices` sequence, and the translated texts are message ids.
- `JSON.parse` and `JSON.stringify`: a parse is an `Option<Value>` parameter next to the
  raw text (`None` for a syntax error). What is saved is the `Value` that would be
  stringified, so the round-trip lemmas assume that parsing the written text gives that
  value back.
- Regular expressions are written out as string functions. These are `/<h2>(.*?)<\/h2>/`,
  the bullet-marker strip, `(<p><br><\/p>|<p><\/p>)+$`, `/^[0-9]{10,11}$/` and
  `/\n/g`. The e-mail rule's pattern is not modelled; its verdict is a parameter.
- The bullet marker in `convertContentToHtml` is mis-encoded in the source text. It is
  modelled as one marker character, `•`, next to `-` and `*`.
- Numbers are integers. Floating point is not modelled; in particular the percentages
  (`toFixed`) of the exercise score and of the review statistics are left out:
  - Exercise.ExerciseSession.SubmitAllAnswers: the score is `{correct, total}` without the
    percentage text (which is `NaN` for a task without questions).
  - ReviewDetail.GetTaskStats: the percentage is the ratio's two counts, not the printed
    number.
- Strings are sequences of Unicode characters. JavaScript strings are UTF-16 code units, so
  `length`, `substring(1)` and indexing differ from the model for characters outside the
  Basic Multilingual Plane. The texts the modelled code measures or cuts (markers, tags,
  digits, six-character codes) are all inside it.
- Dates: the date library's parsing and formatting is a parameter (the formatted
  birthday), and the future-date limit of the picker is not modelled.
- Timers: the `setTimeout` that fills a new subtask's name is applied at once.
- Object identity: `===` is modelled for primitive values only, which are the only values
  the modelled comparisons see. Object key order is kept as insertion order, as `JSON.parse`
  and the spread operator produce it.
- Ids: `null` and `undefined` ids are the number 0, which no record carries.
- The signed-in role is a parameter instead of the stored user type.
- The `@constants` module (src/constants/index.js) is not part of this model. The numbers
  its named constants stand for in the option tables of src/constants/masterData.js (the
  status constants and `TaskTypes`) are taken as given: the values the list pages define
  locally, 1 and 2 for the task kinds, and 0 for `STATE_WAITING_OTP`.
- `useFetch` is not part of this model. The registration hook is taken to hand `onCompleted`
  the response body and `onError` the thrown error.
- File upload flows, the login page, the achievement page and the remaining list pages are
  not part of this model.
- SimulationForm.LoadField: truthy content that is not text gives `None`. The source returns
  an array holding the element `"<"` unchanged and throws for any other such value.
- TaskList.HierarchyShape: stated for inputs whose TASK ids are distinct and whose SUBTASK
  ids are distinct. With repeated ids the `Map` merges entries, and the shape is not
  described.
- TaskList.HierarchySlots: stated under the same distinct-id condition.
- TaskList.Conservation: stated under the same distinct-id condition.
- TaskList.IndexNumbersTasks: stated under the same distinct-id condition.
- Exercise.UnansweredIsMissing: stated for distinct question ids and answers given only to
  listed questions, the only answers the page can record.
- MasterData.FromEntriesFindsEveryRow: stated for tables with distinct values. Every table
  has them (`MasterData.TableValues`, `MasterData.SimulationStatusTag`).
