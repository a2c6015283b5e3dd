# SafeEYE core, modelled in Dafny

SafeEYE is a hazard-spotting trainer. An administrator annotates site
photographs with hazard regions. Each region cites a clause of the knowledge
base and carries a score weight. The administrator assembles annotated
photographs into exams. A trainee then clicks where they see hazards: a
click inside a region scores it, a miss counts against them, and the answers
are revealed after three misses or once everything is found.

This project models the core of that system:

- `common.dfy` (`Common`): option and result types, the JavaScript `||`
  default, order-keeping filter, first index, and a stable sort.
- `geometry.dfy` (`Geometry`): ratio-space coordinates relative to the
  displayed image, plus the rectangle arithmetic of the draw, move and
  resize gestures.
- `annotation_engine.dfy` (`AnnotationEngine`): the annotation workbench,
  as a class `Engine` whose methods are the pointer and dialog handlers.
  The region-list edits and the image list filter are functions.
- `interaction_judge.dfy` (`InteractionJudge`): the exam player. It has a
  pure model of one slide (`Slide`, `Click`, `Run`) with its invariant and
  scoring lemmas. The class `Judge` runs the exam. `FindHit` is the
  collision loop.
- `test_assembler.dfy` (`TestAssembler`): the exam builder, with the
  selection toggle and the publish handler.
- `knowledge_manager.dfy` (`KnowledgeManager`): risk weights from
  likelihood and consequence levels, level colours, the sorted dictionary
  views and the item form's weight update.
- `knowledge_tree.dfy` (`KnowledgeTree`): the server regroups the flat
  `knowledge` table into scenes, categories and items. The start-up
  migration flattens such a tree into the table. Flattening a well-formed
  tree into an empty table and regrouping it gives the tree back. The
  other direction is not claimed, because regrouping reorders the rows.
- `server_tables.dfy` (`ServerTables`): the SQLite tables as sequences of
  rows in rowid order. This module covers the annotation save and read, the
  asset listing, exam publishing and slide read-back, and the table
  whitelist of the database inspector.

Handlers that update component state in place are methods of a class, with
`modifies` frames. Calculations are functions, and loops in the source are
methods with loop invariants. Every server transaction is a method that
returns a `Result` (status 500 on a constraint failure). Each method is
proved against a pure function, and the properties of that function are
lemmas.

## Model

| member | source | states |
|---|---|---|
| Common.Filter | client/src/components/Admin/TestAssembler.jsx:18 | keeps exactly the elements that satisfy the predicate, in order, never growing the list |
| Common.SortBySorted | client/src/components/Admin/KnowledgeManager.jsx:250 | the stable sort's output is ordered by the key, is a permutation of the input, and is the input itself when the input is already ordered |
| Common.SortByStable | client/src/components/Admin/KnowledgeManager.jsx:250 | elements with equal keys keep their original relative order after sorting |
| Geometry.Clamp | client/src/components/Admin/AnnotationEngine.jsx:111-112 | the result lies in [lo, hi], equals v when v is inside, and equals the nearer bound otherwise |
| Geometry.RatioPos | client/src/components/Admin/AnnotationEngine.jsx:108-118 | the pointer position in ratio space always lies in [0,1]², is the exact offset/size ratio inside the image, and is 0 or 1 beyond each edge |
| Geometry.RatioPosOf | client/src/components/Admin/AnnotationEngine.jsx:108-111 | a position exists exactly when an image is mounted, and it lies in [0,1]² |
| Geometry.AspectLock | client/src/components/Admin/AnnotationEngine.jsx:205-214 | the locked box has a square pixel footprint whose edge is the larger pixel span, and it never shrinks either side |
| Geometry.DrawCandidate | client/src/components/Admin/AnnotationEngine.jsx:196-221 | unlocked: the bounding box of the start and current points; locked: square in pixels, anchored at the start point on each axis by drag direction, and covering the drag |
| Geometry.MovedRect | client/src/components/Admin/AnnotationEngine.jsx:176-193 | a move keeps the size, keeps the origin non-negative and the far edge within 1 (for boxes no larger than the image), and the new origin is exactly `Clamp(x + dx, 0, 1 - w)` on each axis (0 when the box is wider than the image) |
| Geometry.ResizedRect | client/src/components/Admin/AnnotationEngine.jsx:138-173 | a resize keeps the top-left corner, never goes below 0.01, grows by at least the drag, and is square in pixels under aspect lock |
| Geometry.LockedDrawMayLeaveImage | client/src/components/Admin/AnnotationEngine.jsx:216-217 | an aspect-locked draw dragged up and to the left can put the box origin outside the image |
| Geometry.ResizeMayLeaveImage | client/src/components/Admin/AnnotationEngine.jsx:145-146 | a resize can push the box past the image's right edge |
| AnnotationEngine.ResizeRegions | client/src/components/Admin/AnnotationEngine.jsx:139-171 | only the regions with the resized id change, each exactly to `ResizedRect` of its box, so with every guarantee of a single resize |
| AnnotationEngine.MoveRegions | client/src/components/Admin/AnnotationEngine.jsx:177-191 | only the regions with the moved id change, each exactly to `MovedRect` of its box: the size kept and the origin clamped |
| AnnotationEngine.Without | client/src/components/Admin/AnnotationEngine.jsx:481-484 | the delete removes every region with that id and keeps every other region |
| AnnotationEngine.WithoutAppend | client/src/components/Admin/AnnotationEngine.jsx:481-484 | deleting distributes over concatenation, so the surviving regions keep their order |
| AnnotationEngine.WithoutAbsent | client/src/components/Admin/AnnotationEngine.jsx:481-484 | deleting an id that no region carries leaves the list unchanged |
| AnnotationEngine.ConfirmThenDelete | client/src/components/Admin/AnnotationEngine.jsx:618-625 | confirming a draft with a fresh id and then deleting it gives back the original list |
| AnnotationEngine.FilteredImages | client/src/components/Admin/AnnotationEngine.jsx:317-323 | the list shows exactly the images that match both the search and the status filter |
| AnnotationEngine.StatusFiltersPartition | client/src/components/Admin/AnnotationEngine.jsx:317-323 | under any search, the annotated and the unannotated lists together count exactly as many images as the full list |
| AnnotationEngine.PickItem | client/src/components/Admin/AnnotationEngine.jsx:306 | the first item with the id, or none exactly when no item has it |
| AnnotationEngine.WithClause | client/src/components/Admin/AnnotationEngine.jsx:307-313 | the draft takes the item id as its clause and the item description; its weight is the item weight, or 10 when that weight is falsy |
| AnnotationEngine.Engine.constructor | client/src/components/Admin/AnnotationEngine.jsx:5-23 | the initial state: no image, no regions, rectangle mode, no gesture and no dialog |
| AnnotationEngine.Engine.SelectImage | client/src/components/Admin/AnnotationEngine.jsx:96-106 | the chosen image becomes active with its stored regions, and the gesture state is untouched |
| AnnotationEngine.Engine.SetDrawMode | client/src/components/Admin/AnnotationEngine.jsx:400-403 | the shape of the next draft is set |
| AnnotationEngine.Engine.MouseDownOnImage | client/src/components/Admin/AnnotationEngine.jsx:120-131 | a left press with an image open and no dialog starts a draw at the pointer with an empty box; any other press changes nothing |
| AnnotationEngine.Engine.MouseDownOnRegion | client/src/components/Admin/AnnotationEngine.jsx:457-463 | a left press on a region body starts a move from the pointer |
| AnnotationEngine.Engine.MouseDownOnResizeHandle | client/src/components/Admin/AnnotationEngine.jsx:492-497 | a press on the corner handle starts a resize from the pointer |
| AnnotationEngine.Engine.MouseDownOnDeleteButton | client/src/components/Admin/AnnotationEngine.jsx:481-484 | the region list becomes `Without` that id |
| AnnotationEngine.Engine.MouseMove | client/src/components/Admin/AnnotationEngine.jsx:133-222 | resize takes precedence over move, and move over draw; each applies the delta since the last recorded point, and the resize start advances only while the region exists |
| AnnotationEngine.Engine.MouseUp | client/src/components/Admin/AnnotationEngine.jsx:224-258 | a release ends a resize, else a move; else it ends a draw, and a box larger than 0.02 on both axes becomes the pending draft with weight 10 and no clause |
| AnnotationEngine.Engine.ItemChange | client/src/components/Admin/AnnotationEngine.jsx:304-315 | picking a listed item attaches it to the pending draft; an unknown item leaves the draft as it is |
| AnnotationEngine.Engine.WeightInput | client/src/components/Admin/AnnotationEngine.jsx:605 | the draft weight becomes the parsed number, or 0 when the input does not parse |
| AnnotationEngine.Engine.Cancel | client/src/components/Admin/AnnotationEngine.jsx:612 | the dialog closes and the draft is discarded |
| AnnotationEngine.Engine.Confirm | client/src/components/Admin/AnnotationEngine.jsx:618-625 | a draft without a clause is refused; otherwise it is appended to the region list and the dialog closes |
| InteractionJudge.FirstHitFrom | client/src/components/User/InteractionJudge.jsx:129-136 | the first region from index k whose closed box contains the point, or none exactly when no such region exists |
| InteractionJudge.FirstHit | client/src/components/User/InteractionJudge.jsx:129-136 | the hit is the first region in list order whose box contains the click, whatever the region's shape |
| InteractionJudge.FindHit | client/src/components/User/InteractionJudge.jsx:129-136 | the collision loop with its early exit returns exactly `FirstHit` |
| InteractionJudge.ClickPointInsideImage | client/src/components/User/InteractionJudge.jsx:122-124 | on the image itself, the judge's unclamped click position agrees with the workbench conversion |
| InteractionJudge.HitWeight | client/src/components/User/InteractionJudge.jsx:143 | a hit scores the region weight, or 10 when that weight is falsy; never 0 |
| InteractionJudge.Click | client/src/components/User/InteractionJudge.jsx:117-160 | when revealed or on a found region, nothing changes; a new hit adds its id and weight and reveals once all are found; a miss counts and reveals at the third |
| InteractionJudge.LoadedInv | client/src/components/User/InteractionJudge.jsx:76-86 | a freshly loaded slide satisfies the slide invariant |
| InteractionJudge.ClickKeepsInv | client/src/components/User/InteractionJudge.jsx:117-160 | every click keeps the miss count in 0..3 (3 means revealed), keeps the found ids distinct and real, and keeps a fully found slide revealed |
| InteractionJudge.RunKeepsInv | client/src/components/User/InteractionJudge.jsx:117-160 | any sequence of clicks keeps the slide invariant |
| InteractionJudge.RunWhileRevealed | client/src/components/User/InteractionJudge.jsx:118-119 | once the answers are shown, no click changes anything |
| InteractionJudge.MissRun | client/src/components/User/InteractionJudge.jsx:153-158 | k misses from m raise the counter to min(m+k, 3) and reveal exactly when m+k ≥ 3, scoring nothing |
| InteractionJudge.ClickScores | client/src/components/User/InteractionJudge.jsx:138-152 | with distinct region ids, a click raises the total by exactly the weight of the region it adds to the found list |
| InteractionJudge.RunScores | client/src/components/User/InteractionJudge.jsx:138-152 | over any run of clicks, the total grows by exactly the weights of the regions found |
| InteractionJudge.AllFoundIff | client/src/components/User/InteractionJudge.jsx:176 | with distinct region ids, the success test holds exactly when the slide has regions and every one has been found |
| InteractionJudge.IsAllFoundIsAllFound | client/src/components/User/InteractionJudge.jsx:176 | the judge's success test agrees with the slide-level one |
| InteractionJudge.Judge.constructor | client/src/components/User/InteractionJudge.jsx:5-26 | the initial state: not testing, no slide, a zero score and the start-up user name |
| InteractionJudge.Judge.LoadQuestion | client/src/components/User/InteractionJudge.jsx:76-86 | loading a slide resets found, misses and reveal and keeps the total; with no slide nothing changes |
| InteractionJudge.Judge.StartExam | client/src/components/User/InteractionJudge.jsx:59-74 | the selected exam starts at slide 0 with a zero total, its name as exam id, and its first slide loaded |
| InteractionJudge.Judge.HandleCanvasClick | client/src/components/User/InteractionJudge.jsx:117-160 | the current slide takes exactly one `Click` step at the click position and keeps its invariant |
| InteractionJudge.Judge.HandleNext | client/src/components/User/InteractionJudge.jsx:88-115 | only callable once the answers are shown (the button renders only then, lines 346-357); before the last slide it loads the next one and carries the total over; on the last slide it posts the record (falling back to the default exam id), and a post that goes through resets the run |
| TestAssembler.Offered | client/src/components/Admin/TestAssembler.jsx:14-19 | exactly the annotated images are offered, in list order |
| TestAssembler.Toggled | client/src/components/Admin/TestAssembler.jsx:21-27 | an unselected image is appended; a selected one is removed with every entry of that name, and the rest keep their order (`Unselect`); only that name's membership flips |
| TestAssembler.UnselectAppend | client/src/components/Admin/TestAssembler.jsx:24 | unselecting works piece by piece over a concatenation, so the remaining entries keep their selection order |
| TestAssembler.ToggleKeepsDistinct | client/src/components/Admin/TestAssembler.jsx:21-27 | toggling never creates a repeated name in the selection |
| TestAssembler.ToggleTwice | client/src/components/Admin/TestAssembler.jsx:21-27 | toggling an unselected image twice restores the selection |
| TestAssembler.Assembler.constructor | client/src/components/Admin/TestAssembler.jsx:5-8 | empty image list and selection, with the given name and description |
| TestAssembler.Assembler.FetchImages | client/src/components/Admin/TestAssembler.jsx:14-19 | the image list becomes `Offered` of the listing |
| TestAssembler.Assembler.ToggleSelect | client/src/components/Admin/TestAssembler.jsx:21-27 | the selection becomes `Toggled` and stays free of repeated names |
| TestAssembler.Assembler.HandlePublish | client/src/components/Admin/TestAssembler.jsx:29-58 | a blank name or an empty selection sends nothing; otherwise the trimmed fields and the selected names in order are sent, and only an accepted request clears the selection |
| TestAssembler.PublishedSelectionReadsBack | client/src/components/Admin/TestAssembler.jsx:36-41 | the exam the server stores for a sent payload reads back as the selected names in selection order |
| KnowledgeManager.FindEntry | client/src/components/Admin/KnowledgeManager.jsx:205-206 | the first dictionary entry with the id, or none exactly when no entry has it |
| KnowledgeManager.LevelValue | client/src/components/Admin/KnowledgeManager.jsx:205-206 | a level's value is that of its first entry, and 0 for an unknown id |
| KnowledgeManager.CalculateWeight | client/src/components/Admin/KnowledgeManager.jsx:204-208 | the weight is 0 when either level is unknown, and otherwise the product of the two levels' values |
| KnowledgeManager.CalculateWeightSymmetric | client/src/components/Admin/KnowledgeManager.jsx:204-208 | the weight does not depend on which of the two levels is the likelihood |
| KnowledgeManager.LevelColorOf | client/src/components/Admin/KnowledgeManager.jsx:210-216 | each colour is chosen exactly on its value band: ≤1, (1,2], (2,3], (3,4], >4 |
| KnowledgeManager.LevelColorMonotone | client/src/components/Admin/KnowledgeManager.jsx:210-216 | a higher level value never gets a milder colour |
| KnowledgeManager.RiskView | client/src/components/Admin/KnowledgeManager.jsx:250 | the view holds exactly the entries of its kind, as a permutation, in ascending order of value |
| KnowledgeManager.RiskViewStable | client/src/components/Admin/KnowledgeManager.jsx:250 | entries of equal value appear in dictionary order |
| KnowledgeManager.OnLikelihoodChange | client/src/components/Admin/KnowledgeManager.jsx:521-523 | the likelihood level is set, the weight again equals the one the two levels give, and nothing else changes |
| KnowledgeManager.OnConsequenceChange | client/src/components/Admin/KnowledgeManager.jsx:536-538 | the consequence level is set, the weight again equals the one the two levels give, and nothing else changes |
| KnowledgeManager.LevelChangesCommute | client/src/components/Admin/KnowledgeManager.jsx:521-538 | setting the two levels in either order gives the same form |
| KnowledgeTree.ItemOf | server/src/app.js:173-178 | a row becomes an item with its id, title and content; its weight is the row's, or 10 when that is falsy, never 0 |
| KnowledgeTree.Regroup | server/src/app.js:167-179 | the row loop builds exactly the fold of `AddRow` over the rows |
| KnowledgeTree.RegroupPlacesEachRow | server/src/app.js:161-190 | the regrouped tree has distinct scene names, distinct non-empty categories per scene, and under each scene and category exactly that pair's rows, in table order |
| KnowledgeTree.InsertAllAppends | server/src/db.js:148-155 | inserting rows with distinct new ids by `INSERT OR REPLACE` appends them in order |
| KnowledgeTree.MigrateThenRegroup | server/src/db.js:148-155 | migrating a well-formed tree into an empty table and regrouping the table gives back the same tree |
| ServerTables.SetAnnotated | server/src/app.js:149 | only the image's own row gets the new flag |
| ServerTables.SaveMeta | server/src/app.js:135-158 | the save commits exactly when every insert finds its id free and, for a non-empty post, the image has an `assets` row (the foreign key): the table then holds the other images' rows plus the posted items in order, and the flag is 1 exactly for a non-empty post; otherwise it rolls back with status 500 |
| ServerTables.NoClashIff | server/src/db.js:37-48 | the save commits exactly when the posted ids are distinct and none belongs to another image's stored rows |
| ServerTables.SaveThenRead | server/src/app.js:113-132 | after a save the image reads back exactly the posted regions (as a multiset, since the read has no order), and other images read back unchanged |
| ServerTables.ListAssets | server/src/app.js:40-63 | one entry per asset row, annotated exactly when the stored flag is 1 |
| ServerTables.SaveThenList | server/src/app.js:55 | after a save the listing shows the image as annotated exactly when the post was non-empty, and every other entry unchanged |
| ServerTables.Publish | server/src/app.js:206-233 | the publish commits exactly when the exam name is present and every slide names an existing asset (the foreign key), and otherwise fails with status 500; on commit the exam row is replaced and the slides are stored in order under the name |
| ServerTables.ExamSlides | server/src/app.js:242 | the read-back is the asset ids of the exam's stored rows, as a permutation of those rows sorted by `order_index` |
| ServerTables.PublishedRows | server/src/app.js:214-224 | after a publish the exam's slide rows are exactly the ones just written, with indexes 0, 1, 2, … |
| ServerTables.PublishThenRead | server/src/app.js:261 | reading an exam back right after publishing it gives the published slides, in order |
| ServerTables.PublishStoresExamOnce | server/src/app.js:212-217 | after a publish exactly one row carries the exam id, with status "published" when none was given |
| ServerTables.CheckTable | server/src/app.js:327-340 | a table name outside the whitelist is refused with status 400; an accepted name is used unchanged |
| ServerTables.CheckTableAccepts | server/src/app.js:331-334 | exactly the six listed tables pass |
| ServerTables.CheckedNameIsIdentifier | server/src/app.js:331-335 | a name that passes contains only lower-case letters and underscores, so the spliced query cannot carry SQL |

## Left out

- Rendering, styles, icons and the `fetch` calls are not modelled. Responses are parameters, and asynchronous ordering and React's batching of state updates are assumed away.
- Strings are not processed. The name trim, the case-insensitive search and `parseInt` are parameters.
- Clocks and fresh ids (`Date.now()`) are parameters.
- File upload, the asset and knowledge JSON files read at start-up, and the cleanup route are not modelled.
- The score-record route and the `records` table are not modelled. The ScoreKeeper, ExamManager and DBInspector views are not part of this model, apart from the whitelist check behind the inspector.
- The risk dictionary's server route is not part of the source shown, so the dictionary is an input to `KnowledgeManager`.
- Real arithmetic is exact. Floating-point rounding in the ratio computations is not modelled.
- JavaScript falsy values: the value 0 stands for every falsy weight (0, null, NaN), and "" stands for a missing id. A null SQL value is not otherwise modelled. In particular, SQLite accepts several NULL ids in a `TEXT PRIMARY KEY`, and a null slide violates `exam_items.asset_id NOT NULL`; neither case is modelled.
- Object.values orders integer-like keys first. `KnowledgeTree.Regroup` keeps groups in order of first appearance for every name.
- Two scene names that differ but convert to the same object key are not modelled.
- KnowledgeTree.MigrateThenRegroup: holds for trees with distinct scene names, distinct categories per scene, no empty scene or category, distinct item ids and non-zero weights. Other trees lose empty groups or merge names. The migration runs only when the `assets` table is empty (db.js:91-95). The `knowledge` table need not be empty then, but the round trip is stated for an empty one.
- ServerTables.SaveThenRead: the image's regions are claimed only as a multiset, because the read has no `ORDER BY` and SQLite does not promise an order.
- ServerTables.ListAssets: keeps table order rather than `ORDER BY upload_time DESC`, and the file columns are dropped.
- ServerTables.SaveMeta and ServerTables.Publish enforce the `asset_id` foreign keys of `annotations` and `exam_items`, as SQLite does with foreign-key enforcement on. The source never sets that pragma, so this relies on better-sqlite3 turning enforcement on by default. The `ON DELETE CASCADE` actions are not modelled, because no modelled route deletes an asset. The cascade that `INSERT OR REPLACE` on `exams` triggers removes only that exam's old slides, which the publish deletes anyway.
- The picker cascade in the clause dialog (scene, then category, then item lists, lines 285-301 of the workbench) is not modelled. `ItemChange` takes the current category's item list as a parameter, and the dialog's scene and category presets at release are left out.
- InteractionJudge.Click: when every region is found, the answers are revealed at once. The 800 ms delay before the reveal, and clicks that land during that delay, are not modelled.
- InteractionJudge.Judge.HandleNext: a response that is not ok still counts as a post that went through, as in the source. Only a network failure leaves the run as it was.
- InteractionJudge.Judge.LoadQuestion: with no slide to load, the previous slide's regions stay in place, as the source's early return leaves them.
- The source has no score allocator that divides 100 points among a slide's regions. Weights come from the regions, so none is modelled.
- Several places do not keep boxes inside the image:
  - the aspect-locked draw origin is not clamped (`Geometry.LockedDrawMayLeaveImage`);
  - a resize has no upper bound (`Geometry.ResizeMayLeaveImage`);
  - the judge's click position is not clamped (`InteractionJudge.ClickPoint`).
