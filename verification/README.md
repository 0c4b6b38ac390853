# Signal/Collect console: a verified model of its client code and of the monitoring collector

The console of Signal/Collect draws a running graph computation in the browser.  Its own code (`graph-drawing.js`,
`main.js`) rests on two libraries that are checked in with it, jQuery 1.9.1 and d3 3.1.6, and on a small reconnecting
WebSocket; the monitoring server has a collector that writes the reports of the agents to a file.  This project models
the parts of that code that keep state or do real work, and proves what they are for.

| module | what it models |
|---|---|
| `Callbacks` | `jQuery.Callbacks` as a machine of small steps, so that callbacks may add, remove, fire, lock or disable while the list is being walked; claims hold over every run |
| `CallbackLists` | the same list as an object whose variables are updated in place; each operation equals the step of the machine |
| `Deferreds` | `jQuery.Deferred`: three callback lists, the state, and the stack of callbacks in progress |
| `Whens` | `jQuery.when`: the master over the positions of its arguments |
| `Subordinates` | `jQuery.when` together with the Deferreds it is given, whatever else is done to them |
| `Dsv` | d3's writer and reader of delimiter-separated values (compare section 2 of RFC 4180) |
| `Interpolate` | d3's string interpolator, which compacts a template by splicing and relocating slots |
| `Treemap` | d3's squarified treemap over exact reals |
| `Quadtree` | d3's quadtree, its visitor, and the Barnes-Hut sums of the force layout, over exact reals |
| `DataJoin` | d3's keyed data join with `enter().append` |
| `Timers` | d3's timer queue, an intrusive linked list with a table by callback id |
| `Graph` | `GraphD3`: vertices and edges with their index tables, eviction by sequence number, and the circles of the canvas, drawn by the join of `DataJoin` |
| `Settings` | `scc.Settings`: settings stored as a difference from the defaults, with deep `jQuery.extend` |
| `Orders` | `scc.order` and what cancels an order |
| `Socket` | the reconnecting WebSocket under any interleaving of events |
| `Collector` | `MessageCollector`: buffers, flushes and the resampling of step functions |

Objects of the source are classes with the same fields; loops that update variables are methods with invariants; code
made of expressions is functions.  Clocks, random numbers, the server, the DOM and user callbacks are parameters: `now`,
`jitter`, `script` (what each callback does if it is called), `stop` (the nodes at which a visitor's callback says true),
or sequences of events in any order.  Fields marked `ghost` carry history that only the specification needs.

Where the code does not do what its surroundings suggest, the code is modelled as it is and the exact condition is
proved, together with an input that fails:

- Reading back what the DSV writer wrote gives the same table if and only if every row has a field, no field that
  needs no quotes holds a CR, and the very last field is not empty (`Dsv.RoundTrip`; it fails in
  `Dsv.UnsafeFieldCut`).
- The padded rectangle of a treemap node lies inside the node if and only if the paddings fit or differ by no more
  than the node's side (`Treemap.PadInside`; it fails in `Treemap.PadOutside`).
- `dice` gives a square rectangle one row of full height, as `slice` does, because the code compares the side of the
  row with the width of the rectangle (`Treemap.LayRows`).
- Reading settings after writing them gives exactly the merged settings if and only if no leaf of the stored settings,
  with the change merged in, equals its default under `==` without being spelled like it, as the string "10" does for
  the number 10 (`Settings.SetThenGetExactly`; it fails in `Settings.DefaultRespelled`).  What `set` stores has no
  such leaf, so that after a `set` only the change matters (`Settings.SetAgainThenGet`); a loaded hash may have one.
- What the collector writes for one buffer has no gap over 100 ms if and only if no entry at time 0 comes more than
  100 ms before the next (`Collector.RowsSampled`; it fails in `Collector.GapAfterZero`); the code uses time 0 to mean
  "no entry yet".  Over a whole run the lines of an agent rise by at most 100 ms each if and only if that holds of
  each of its buffers and each buffer starts after the last line written before, by at most 100 ms
  (`Collector.RunSampled`); nothing is filled in between two buffers, so that a run of two reports can leave a gap
  (`Collector.GapBetweenChunks`).
- `vertexRefs[id] = undefined` in `onmessage` leaves a vertex on the canvas without an entry in the table; the
  eviction of the same message always removes that vertex (`Graph.ForgottenAreEvicted`).
- A callback has a timer after a timer step if and only if it had one or was registered during the step, and its old
  timer was not one that was called and asked to be removed (`Timers.StillKept`).  So a callback that asked to be
  removed and is registered again in the same step loses its timer (`Timers.RegisteredInVain`).
- A quadtree insertion ends if and only if the leaf that the point comes to is empty, or holds a point that coincides
  with it or that the quarters tell apart from it (`Quadtree.InsertionEnds`); otherwise it recurses without end, as
  for two points beyond the same corner of the root square (`Quadtree.InsertedInVain`).  In a box with positive sides
  two points are never told apart if and only if they are equal after clamping to the box (`Quadtree.NeverSeparated`),
  which for points inside it means that they coincide.
- `close` closes the socket for good if and only if no reconnection is waiting; while one is, it does nothing, and the
  socket may open again (`Socket.CloseTakesEffect`; it fails in `Socket.ClosedInVain`).  The first connection passes
  its address as `reconnectAttempt`, so that a failure before it opens is not reported by `onclose`, which only
  follows `onopen` or a forced close (`Socket.HandlersAlternate`); and the flag `timedOut` is never seen set by a
  handler (`Socket.StepInv`).
- The callback of a reply is deleted after it has run, together with a callback that it ordered itself for the same
  provider.  It leaves what it should if and only if the last thing it does about its provider is not to order from it
  with a callback (`Orders.CallbackSurvives`; it fails in `Orders.OrderedInVain`).
- `GraphD3.destroy` clears the canvas but leaves the ids in local storage, so that they agree with the canvas if and
  only if there were none (`Graph.GraphD3.Destroy`).
- A replied edge between vertices on the canvas is drawn if and only if no edge spelled by the same id has lost an end
  in the eviction of that reply (`Graph.RepliedDrawn`; it fails in `Graph.SpelledAlike`): ids that contain "-" may give two pairs the same edge id.
- After `empty` in a running callback the firing loop goes on to an entry that is not there, and throws, if and only
  if the callback was not the last one (`Callbacks.EmptyWhileFiring`; it fails in `Callbacks.EmptiedTooSoon`).

## Model

| member | source | states |
|---|---|---|
| Callbacks.StepInv | src/main/resources/web-data/dependencies/jquery.js:1029-1151 | every operation, at any moment user code has control, keeps the list consistent, a callback that returns false under `stopOnFalse` included: while it fires, the loop's end is the list's length and its index separates exactly the entries already invoked |
| Callbacks.AddInv | src/main/resources/web-data/dependencies/jquery.js:1058-1087 | adding keeps that, during a firing (the new entries join it) and after one (the memorised arguments are replayed to the new entries only) |
| Callbacks.RemoveInv | src/main/resources/web-data/dependencies/jquery.js:1089-1108 | removing keeps it, whichever side of the firing index the removed entries are on |
| Callbacks.InvokeInv | src/main/resources/web-data/dependencies/jquery.js:1036-1041 | one turn of the firing loop |
| Callbacks.EndInv | src/main/resources/web-data/dependencies/jquery.js:1042-1053 | the end of a firing: the next waiting request starts, or a `once` list is emptied or disabled |
| Callbacks.FireWithInv | src/main/resources/web-data/dependencies/jquery.js:1141-1151 | a request fires at once, waits on the stack, or is ignored; `AcceptedAreTaken` says which |
| Callbacks.WithoutKeeps | src/main/resources/web-data/dependencies/jquery.js:1093-1094 | removal takes out exactly the entries of the callback and keeps the others in order |
| Callbacks.SurvivorsInvokedOnce | src/main/resources/web-data/dependencies/jquery.js:1029-1108 | in every run, a batch that runs to its end has invoked each callback still in the list exactly once, in list order, from where the batch started |
| Callbacks.RequestedBatchInvokesAll | src/main/resources/web-data/dependencies/jquery.js:1029-1054 | a batch asked for by `fireWith` starts at the first entry, so it invokes all survivors |
| Callbacks.BatchesInRequestOrder | src/main/resources/web-data/dependencies/jquery.js:1044-1047 | nested fires are delivered as whole batches in the order of the requests, never interleaved, and an idle list has nothing waiting |
| Callbacks.AcceptedAreTaken | src/main/resources/web-data/dependencies/jquery.js:1112-1151 | in every run the requests accepted are those that the actions alone say are taken: all of an open list, the first of a `once` list, none after a lock or `disable`, also for requests made by running callbacks |
| Callbacks.AllRequestsDelivered | src/main/resources/web-data/dependencies/jquery.js:1029-1151 | a list neither locked nor disabled takes every request made, also while it fires, or only the first if it is `once`; once idle it has delivered exactly those requests, in their order |
| Callbacks.NothingTakenAfter | src/main/resources/web-data/dependencies/jquery.js:1112-1151 | after a lock or `disable` no request is taken, unless an `empty` revives a list that was never fired |
| Callbacks.ListHolds | src/main/resources/web-data/dependencies/jquery.js:1058-1118 | the list holds the callbacks that were added and not removed since, in order, told from the actions alone |
| Callbacks.EveryoneHears | src/main/resources/web-data/dependencies/jquery.js:1075-1086 | an idle list that memorises has invoked every callback it holds with the arguments of the last request, those added after it too |
| Callbacks.LockedStillHear | src/main/resources/web-data/dependencies/jquery.js:1075-1135 | the same of a list locked after it was fired: it is still there, and callbacks added to it are invoked with the arguments of the last request delivered |
| Callbacks.BecomesIdle | src/main/resources/web-data/dependencies/jquery.js:1036-1053 | from every state of every run, if user code does nothing more, the loop comes to its end |
| Callbacks.OnceFiresOnce | src/main/resources/web-data/dependencies/jquery.js:1141-1151 | a `once` list accepts at most one request; every later batch replays its arguments |
| Callbacks.OnceSpent | src/main/resources/web-data/dependencies/jquery.js:1042-1053 | once fired and idle it is disabled, or, if it memorises, holds nothing |
| Callbacks.StoppedNotReplayed | src/main/resources/web-data/dependencies/jquery.js:1036-1041 | a batch that a callback stopped by returning false is not replayed to callbacks added later |
| Callbacks.StopsOnFalse | src/main/resources/web-data/dependencies/jquery.js:1036-1041 | under `stopOnFalse`, whatever follows, a batch in which a callback returned false invokes nothing more |
| Callbacks.EmptyWhileFiring | src/main/resources/web-data/dependencies/jquery.js:1036-1041 | after `empty` in a running callback the loop reads past the list if and only if the callback was not the last one |
| Callbacks.EmptiedTooSoon | src/main/resources/web-data/dependencies/jquery.js:1036-1118 | the shortest run in which it does |
| CallbackLists.CallbackList.Fire | src/main/resources/web-data/dependencies/jquery.js:1029-1035 | the assignments before the loop are those of the machine |
| CallbackLists.CallbackList.Add | src/main/resources/web-data/dependencies/jquery.js:1058-1087 | the pushing loop and what follows equal the machine's step |
| CallbackLists.CallbackList.Splice | src/main/resources/web-data/dependencies/jquery.js:1094-1103 | one splice with the adjustment of the firing indexes |
| CallbackLists.CallbackList.Remove | src/main/resources/web-data/dependencies/jquery.js:1089-1108 | searching and splicing in place removes all entries at once and leaves the indexes where the machine puts them |
| CallbackLists.CallbackList.FireWith | src/main/resources/web-data/dependencies/jquery.js:1141-1151 | equals the machine's step |
| CallbackLists.CallbackList.Next | src/main/resources/web-data/dependencies/jquery.js:1036-1053 | one turn of the loop, or the end of the firing, equals the machine's step |
| CallbackLists.CallbackList.Returned | src/main/resources/web-data/dependencies/jquery.js:1036-1041 | a callback comes back, with false or not, as in the machine |
| CallbackLists.CallbackList.Leave | src/main/resources/web-data/dependencies/jquery.js:1042-1053 | the code after the loop equals that of the machine |
| CallbackLists.CallbackList.Disable | src/main/resources/web-data/dependencies/jquery.js:1120-1123 | equals the machine's step |
| CallbackLists.CallbackList.Lock | src/main/resources/web-data/dependencies/jquery.js:1129-1135 | equals the machine's step |
| CallbackLists.CallbackList.Perform | src/main/resources/web-data/dependencies/jquery.js:1056-1162 | any action of a run, done in place, equals the machine's step and keeps its invariant |
| Deferreds.DeferredStepInv | src/main/resources/web-data/dependencies/jquery.js:1218-1241 | every registration, request and turn, made at any depth of running callbacks, keeps the three lists, the state and the stack of callbacks consistent |
| Deferreds.SettlesAtMostOnce | src/main/resources/web-data/dependencies/jquery.js:1226-1233 | over every run the state leaves "pending" at most once and never changes again |
| Deferreds.OnlyTheWinnersRun | src/main/resources/web-data/dependencies/jquery.js:1218-1241 | once resolved no fail callback runs and once rejected no done callback; each that runs sees the final state and the rival list disabled |
| Deferreds.RegistrationsRunInOrder | src/main/resources/web-data/dependencies/jquery.js:1218-1241 | when no callback is in progress, a resolved Deferred has run every done registration exactly once in registration order and no fail registration, and the other way round; `OutcomeOf` says when it is resolved |
| Deferreds.ArgumentsOfTheFirstRequest | src/main/resources/web-data/dependencies/jquery.js:1236-1240 | all of them got the arguments of the one accepted request; a later resolve or reject adds nothing |
| Deferreds.OutcomeOf | src/main/resources/web-data/dependencies/jquery.js:1218-1241 | over every run, told from the actions alone: the Deferred is resolved or rejected as the first call of `resolve` or `reject` says, pending if there was none; each done or fail callback that ran is of that list and got the arguments of that call; at rest those registered on it have all run in order; and `notify` has taken all its calls until then |
| Deferreds.AnswersIgnored | src/main/resources/web-data/dependencies/jquery.js:1218-1241 | what a callback of a Deferred returns makes no difference, as none of its lists has `stopOnFalse` |
| Deferreds.ComesToRest | src/main/resources/web-data/dependencies/jquery.js:1029-1054 | from every state of every run, if nothing more is registered or requested, the callbacks in progress come to an end |
| Deferreds.DeliveredOnce | src/main/resources/web-data/dependencies/jquery.js:1218-1241 | over every run all that is delivered goes to one of `done` and `fail`, and to each callback at most once if none was registered twice |
| Whens.MasterOutcome | src/main/resources/web-data/dependencies/jquery.js:1256-1305 | in every run `remaining` counts the positions without a value; the master is resolved exactly when all have one, each value at its position, and rejected exactly when one has failed, with the first failure |
| Whens.MasterSettlesOnce | src/main/resources/web-data/dependencies/jquery.js:1268-1278 | after that the master ignores every delivery, progress included |
| Whens.MasterNotified | src/main/resources/web-data/dependencies/jquery.js:1268-1295 | in every run, as long as it is pending, the master is notified of every notification of a subordinate, those memorised before the call included, in order, and each time of what every position was last notified with |
| Whens.DeliversWhileWaiting | src/main/resources/web-data/dependencies/jquery.js:1288-1295 | in every run of a Deferred, it delivers done or fail to a position only while it has delivered neither; what the claims about `when` rely on |
| Whens.DeliverInv | src/main/resources/web-data/dependencies/jquery.js:1268-1278 | one delivery keeps count, values and master right |
| Whens.Call.ListenTo | src/main/resources/web-data/dependencies/jquery.js:1288-1295 | one turn of the registration loop, with what a settled subordinate delivers during it |
| Whens.Call.constructor | src/main/resources/web-data/dependencies/jquery.js:1256-1302 | the whole call leaves the state the claims are about |
| Whens.Call.Update | src/main/resources/web-data/dependencies/jquery.js:1268-1278 | the done callback of a position, in place |
| Subordinates.WhenSettles | src/main/resources/web-data/dependencies/jquery.js:1256-1305 | over every run of a call of `when` and its Deferreds, told from what was done to them: a resolved master has at each position the argument, or the value that its Deferred was first asked to resolve with, a rejected one the reason that one of them was first asked to reject with; once the call has ended and no callback is in progress, it is resolved if and only if all Deferreds were first asked to resolve, and rejected if and only if one was first asked to reject |
| Subordinates.WhenSettlesOnce | src/main/resources/web-data/dependencies/jquery.js:1256-1305 | a settled master stays as it is, whatever is done to the Deferreds |
| Subordinates.CallEnds | src/main/resources/web-data/dependencies/jquery.js:1256-1305 | from every state of every run, if nothing more is done to the Deferreds, the call ends and all callbacks in progress come to an end, with the same first requests |
| Subordinates.StepInv | src/main/resources/web-data/dependencies/jquery.js:1218-1305 | each action on a Deferred, each registration of `when` and its end keep what the call knows of every position equal to what that position's Deferred has run |
| Subordinates.FateIs | src/main/resources/web-data/dependencies/jquery.js:1218-1241 | what a Deferred has delivered to a position is what it was first asked to settle with, and at rest it has delivered it |
| Dsv.UnescapeEscape | src/main/resources/web-data/dependencies/d3.js:1747-1793 | halving the doubled quotes gives back the field |
| Dsv.Codes | src/main/resources/web-data/dependencies/d3.js:1727-1758 | quote, LF and CR by their character codes, and exactly which delimiters are plain |
| Dsv.WrittenText | src/main/resources/web-data/dependencies/d3.js:1779-1793 | a table with a comma, a quote, a line feed and empty fields, as it is written |
| Dsv.FieldReadBack | src/main/resources/web-data/dependencies/d3.js:1727-1758 | a safe field followed by a separator or the end is read back whole, and exactly one separator is skipped |
| Dsv.FieldEnds | src/main/resources/web-data/dependencies/d3.js:1749-1757 | a field ends at the delimiter, and a line at LF, at CR, or at CR LF, which count as one end |
| Dsv.QuotedEnds | src/main/resources/web-data/dependencies/d3.js:1731-1748 | after a closing quote one character is skipped whatever it is, and CR LF together; a quote that is not closed takes the rest of the text |
| Dsv.UnsafeFieldCut | src/main/resources/web-data/dependencies/d3.js:1749-1756 | an unquoted field with a CR is not read back |
| Dsv.RowsNotEmpty | src/main/resources/web-data/dependencies/d3.js:1759-1767 | the reader returns no empty row |
| Dsv.ReadBackRest | src/main/resources/web-data/dependencies/d3.js:1759-1792 | from the middle of any row, reading gives back the rest of the table if and only if the rest is readable |
| Dsv.RoundTrip | src/main/resources/web-data/dependencies/d3.js:1725-1793 | reading what was written gives back the table if and only if the table is readable |
| Dsv.Tokenizer.Next | src/main/resources/web-data/dependencies/d3.js:1727-1758 | the tokenizer with its index and pending end-of-line flag returns the next token of the remaining text, for any text |
| Dsv.Tokenizer.NextQuoted | src/main/resources/web-data/dependencies/d3.js:1731-1748 | the branch for quoted fields |
| Dsv.Tokenizer.NextPlain | src/main/resources/web-data/dependencies/d3.js:1749-1757 | the branch for the others |
| Dsv.ParseRows | src/main/resources/web-data/dependencies/d3.js:1759-1768 | the reading loops end on every text and return the rows of the specification |
| Interpolate.BuildTemplate | src/main/resources/web-data/dependencies/d3.js:4766-4775 | the template built from the target has a slot for each number, between its literals |
| Interpolate.ShiftSlots | src/main/resources/web-data/dependencies/d3.js:4783-4795 | the loops that relocate the later slots move exactly those, by the right amount |
| Interpolate.Absorb | src/main/resources/web-data/dependencies/d3.js:4778-4800 | a number spelled the same is merged with its neighbours, and every later slot still points to its own gap |
| Interpolate.Compact | src/main/resources/web-data/dependencies/d3.js:4776-4804 | the compacting loop |
| Interpolate.PopRest | src/main/resources/web-data/dependencies/d3.js:4805-4814 | the numbers the source lacks become literal text |
| Interpolate.InterpolateString | src/main/resources/web-data/dependencies/d3.js:4762-4824 | for every pair of tokenised strings and every t the result is the target text with each number interpolated, or left literal where the source lacks it or spells it the same |
| Interpolate.AtTheEnds | src/main/resources/web-data/dependencies/d3.js:4762-4824 | if interpolating numbers starts with the first and ends with the second, the promised text starts as the target around the numbers of the source, and ends as the target |
| Treemap.Refine | src/main/resources/web-data/dependencies/d3.js:6159-6185 | a cell of a tiling may be replaced by cells that tile it |
| Treemap.Pad | src/main/resources/web-data/dependencies/d3.js:6306-6322 | the padded rectangle has no negative side |
| Treemap.PadRoom | src/main/resources/web-data/dependencies/d3.js:6306-6322 | in each direction it keeps the distances of the padding where they fit, and is otherwise a line half-way between where they end |
| Treemap.PadInside | src/main/resources/web-data/dependencies/d3.js:6306-6322 | it lies inside the node if and only if the paddings fit or hardly differ |
| Treemap.PadOutside | src/main/resources/web-data/dependencies/d3.js:6306-6322 | a node of side 1 with a right padding of 3 whose padded rectangle lies outside |
| Treemap.PositionAcross | src/main/resources/web-data/dependencies/d3.js:6216-6228 | a row along the top fills its strip exactly, whatever the rounding |
| Treemap.PositionDown | src/main/resources/web-data/dependencies/d3.js:6229-6242 | the same for a column |
| Treemap.Position | src/main/resources/web-data/dependencies/d3.js:6214-6243 | the row and what is left tile the rectangle; a flushed row tiles all of it |
| Treemap.LayRows | src/main/resources/web-data/dependencies/d3.js:6159-6182 | the loop ends for any score that accepts the first child of a row, and the children tile the rectangle: inside, apart, covering it, equal in area; if nothing is rounded and their areas add up to the rectangle, each cell has the area of its child; slices have the full height and dice the full width; the rows are those of the algorithm, as long as they can be without becoming worse |
| Treemap.Scale | src/main/resources/web-data/dependencies/d3.js:6152-6158 | each child gets its share: its area is to the whole as its value to the total, and never negative |
| Treemap.InProportion | src/main/resources/web-data/dependencies/d3.js:6152-6158 | if the value of a node is the sum of those of its children, the shares add up to the whole and the cells are in proportion to the values |
| Treemap.SquarifyTree | src/main/resources/web-data/dependencies/d3.js:6159-6185 | at every node below, the children tile the padded rectangle as the mode says; if nothing is rounded and the value of the node is positive and the sum of those of its children, the cell of each child is to it as its value is to the node's |
| Treemap.Layout | src/main/resources/web-data/dependencies/d3.js:6244-6255 | the same for the whole hierarchy, the root having the whole canvas and its area |
| Quadtree.Inserted | src/main/resources/web-data/dependencies/d3.js:4537-4565 | insertion ends for every point and in every box, whether the point is inside or not and the box has positive sides or not, if the descent of the point comes to a leaf without a point it can never be told apart from |
| Quadtree.InsertionEnds | src/main/resources/web-data/dependencies/d3.js:4537-4565 | with enough nested calls insertion returns the tree specified if and only if the descent of the point ends; otherwise no number of calls is enough |
| Quadtree.FewerTurns | src/main/resources/web-data/dependencies/d3.js:4557-4565 | as long as two points can be told apart in a box, each halving brings the depth nearer at which they are |
| Quadtree.InsertKeeps | src/main/resources/web-data/dependencies/d3.js:4537-4565 | exactly the new point is added to the multiset of points |
| Quadtree.InsertRouted | src/main/resources/web-data/dependencies/d3.js:4557-4565 | every point below a node is in the quarter the comparisons send it to |
| Quadtree.InsertShaped | src/main/resources/web-data/dependencies/d3.js:4537-4565 | leaves have no children, no child is empty, and an inner node keeps a point only if one below coincides with it |
| Quadtree.KeepsNear | src/main/resources/web-data/dependencies/d3.js:4537-4556 | in coordinates: when a point comes to a leaf with another, that one stays at the node if and only if the absolute differences of the coordinates add up to less than 0.01; otherwise both go to the children |
| Quadtree.InCoordinates | src/main/resources/web-data/dependencies/d3.js:4537-4565 | routing and shape in coordinates: the points below a node are on their child's side of its middle lines, and an inner node has a point of its own only if one below is that near |
| Quadtree.NeverSeparated | src/main/resources/web-data/dependencies/d3.js:4557-4565 | two points get the same quarter at every depth if and only if they are together, which in a box with positive sides means equal coordinates after clamping to it, and in a box upside down the same quarter at once |
| Quadtree.NeverEnds | src/main/resources/web-data/dependencies/d3.js:4537-4565 | where the descent does not end, the tree holds a point that does not coincide with the new one and gets the same quarter at every depth |
| Quadtree.SplitsForever | src/main/resources/web-data/dependencies/d3.js:4537-4565 | there each split of the leaf leads to the same leaf, with the same two points, in a half of the box |
| Quadtree.EndsIfApart | src/main/resources/web-data/dependencies/d3.js:4537-4565 | the descent ends if every point of the tree that is together with the new one coincides with it |
| Quadtree.FitsInside | src/main/resources/web-data/dependencies/d3.js:4537-4565 | if all points are inside the box, every point lies in the box of its node |
| Quadtree.GrownRight | src/main/resources/web-data/dependencies/d3.js:4566-4574 | a tree grown from data, in any order, holds exactly those data, each where the comparisons send it, in nodes of the right shape |
| Quadtree.GrownLaid | src/main/resources/web-data/dependencies/d3.js:4566-4574 | the same in coordinates: a grown tree holds exactly the data, on their sides of the middle lines at every node |
| Quadtree.GrownApart | src/main/resources/web-data/dependencies/d3.js:4566-4574 | building ends for all data of which no two are together without coinciding, as in the extent found from the data |
| Quadtree.InsertedInVain | src/main/resources/web-data/dependencies/d3.js:4537-4565 | a tree of one point, and a point that no number of calls inserts into it |
| Quadtree.Halves | src/main/resources/web-data/dependencies/d3.js:4615-4623 | the visitor's formulas for the four boxes agree with the insertion's |
| Quadtree.Node.Insert | src/main/resources/web-data/dependencies/d3.js:4537-4556 | the objects, updated in place, make up the tree of the specification |
| Quadtree.Node.InsertChild | src/main/resources/web-data/dependencies/d3.js:4557-4565 | the same for the recursion, with the creation of a missing child |
| Quadtree.Node.Visit | src/main/resources/web-data/dependencies/d3.js:4615-4623 | each node reached is handed once, with the box it was created for; nodes are cut off exactly below those where the callback says true |
| Quadtree.EveryNode | src/main/resources/web-data/dependencies/d3.js:4537-4565 | what holds for the root holds for every node with its own box: validity, routing and shape, and, if the points fit the root, that they fit the node |
| Quadtree.Extent | src/main/resources/web-data/dependencies/d3.js:4511-4534 | the extent is the smallest box around the points |
| Quadtree.Build | src/main/resources/web-data/dependencies/d3.js:4509-4581 | the built tree is the one grown from exactly the data, in the square of the given extent, whatever it is, or in a square that contains the data; its points stand where their coordinates say |
| Quadtree.Add | src/main/resources/web-data/dependencies/d3.js:4566-4568 | adding a point, inside the square or not, to a finished tree |
| Quadtree.ChargeSigned | src/main/resources/web-data/dependencies/d3.js:5371-5397 | with charges of one sign the charge of a node is never 0 where there is a point |
| Quadtree.DistinctBodies | src/main/resources/web-data/dependencies/d3.js:5390-5392 | distinct nodes of the layout stand at distinct places of the tree, so that moving one leaves the sums of the others alone |
| Quadtree.Node.Accumulate | src/main/resources/web-data/dependencies/d3.js:5371-5397 | the sums are right at the node and everywhere below it, for any jitter, and only points of inner nodes are moved |
| Quadtree.EverySum | src/main/resources/web-data/dependencies/d3.js:5371-5397 | at every node the charge is the sum of its subtree, `pointCharge` is the charge of its own point, centre times charge is the weighted sum of the final positions, and the node's own point has moved by its jitter exactly if it is an inner node |
| Quadtree.ChargedTree | src/main/resources/web-data/dependencies/d3.js:5209-5211 | building and accumulating in one tick gives that at every node |
| DataJoin.NodesSplit | src/main/resources/web-data/dependencies/d3.js:828-856 | each node is in exactly one of update and exit, at most once, whatever keys repeat |
| DataJoin.DataSplit | src/main/resources/web-data/dependencies/d3.js:841-851 | each first datum of a key is in exactly one of update and enter, a later one in neither |
| DataJoin.IndexNodes | src/main/resources/web-data/dependencies/d3.js:831-840 | the first loop |
| DataJoin.MatchData | src/main/resources/web-data/dependencies/d3.js:841-851 | the second loop, which binds the data in place |
| DataJoin.ExitNodes | src/main/resources/web-data/dependencies/d3.js:852-856 | the third loop |
| DataJoin.Bind | src/main/resources/web-data/dependencies/d3.js:828-880 | the three selections are those of the specification, and only updated nodes get new data |
| DataJoin.Append | src/main/resources/web-data/dependencies/d3.js:1061-1077 | appending fills exactly the gaps of the update selection with new elements |
| DataJoin.Restart | src/main/resources/web-data/js/graph-drawing.js:704-722 | with distinct ids the i-th circle is bound to the i-th vertex, old circles being kept for the ids they had |
| Graph.GraphD3.Restart | src/main/resources/web-data/js/graph-drawing.js:704-722 | the join by id leaves one circle for each vertex in the order of the array, the old one where its id was shown before and a new one elsewhere |
| Timers.UnflaggedIn | src/main/resources/web-data/dependencies/d3.js:1849-1861 | what a flush leaves is exactly the timers not flagged |
| Timers.Queue.TheTimerOf | src/main/resources/web-data/dependencies/d3.js:1800-1806 | a callback is live exactly when the table leads from its id back to it |
| Timers.Queue.Register | src/main/resources/web-data/dependencies/d3.js:1800-1820 | a live callback's timer is renewed, another gets a new one at the front; the list stays acyclic with one indexed node per callback |
| Timers.Queue.Unlink | src/main/resources/web-data/dependencies/d3.js:1852-1854 | one node leaves the list and the table |
| Timers.Queue.Flush | src/main/resources/web-data/dependencies/d3.js:1849-1861 | exactly the flagged timers go, the order stays, and the least due time is returned |
| Timers.Queue.Walk | src/main/resources/web-data/dependencies/d3.js:1821-1827 | callbacks run while the list is walked and may register any callback: each old timer is looked at once, and called exactly if start plus delay have passed (at a flush, if its delay is 0), by the last registration of its callback made before its turn, or else by its own; new ones are not looked at, and the list stays sound |
| Timers.Queue.Step | src/main/resources/web-data/dependencies/d3.js:1821-1839 | a step calls exactly those timers, leaves the new ones and the old ones that did not ask to go, and so exactly the callbacks that had or were given a timer except those whose own timer asked to go; it will wake at the next frame if one is due within 24 ms, else when the first is due, and not if there is none |
| Timers.CalledIf | src/main/resources/web-data/dependencies/d3.js:1821-1848 | a timer is called if and only if start plus delay have passed, or at a flush if it has no delay, by the last registration before its turn or else by its own plan |
| Timers.WakeIs | src/main/resources/web-data/dependencies/d3.js:1829-1838 | when the queue wakes: never if it is empty, at the next frame if a timer is due within 24 ms, else exactly when the first is due |
| Timers.Queue.FlushNow | src/main/resources/web-data/dependencies/d3.js:1840-1848 | the same for the timers without delay |
| Timers.StillKept | src/main/resources/web-data/dependencies/d3.js:1821-1861 | the callbacks that have a timer afterwards are those that had one or were registered, except exactly those whose own timer was called and asked to be removed, even if they were registered again |
| Timers.RegisteredInVain | src/main/resources/web-data/dependencies/d3.js:1800-1861 | a run in which a callback that is registered again after asking to be removed is left without a timer |
| Graph.GraphD3.AddVertices | src/main/resources/web-data/js/graph-drawing.js:514-546 | the first vertices of a reply are drawn or updated with new sequence numbers, for the others the table forgets the id |
| Graph.ForgottenIsOld | src/main/resources/web-data/js/graph-drawing.js:518-522 | a forgotten id belongs to an old vertex, and there are then too many vertices |
| Graph.ForgottenAreEvicted | src/main/resources/web-data/js/graph-drawing.js:518-547 | every vertex whose entry was cleared is on the eviction list |
| Graph.Window | src/main/resources/web-data/js/graph-drawing.js:652-663 | distinct sequence numbers in a window of that width are no more than the limit |
| Graph.Pigeonhole | src/main/resources/web-data/js/graph-drawing.js:652-663 | distinct numbers below a bound are no more than the bound |
| Graph.GraphD3.GetOverflowingVertices | src/main/resources/web-data/js/graph-drawing.js:652-663 | the circles below the window, if there are too many vertices |
| Graph.GraphD3.AddEdges | src/main/resources/web-data/js/graph-drawing.js:559-579 | new edges point to vertex objects on the canvas, and the edge table stays exact |
| Graph.PurgeStep | src/main/resources/web-data/js/graph-drawing.js:771-781 | one turn of the splicing loops keeps the table right for what has been passed |
| Graph.GraphD3.RemoveVerticesFromCanvas | src/main/resources/web-data/js/graph-drawing.js:765-803 | exactly the given vertices and the edges at them go; both tables are exact again, even if entries of the removed vertices were missing |
| Graph.EdgesSurvive | src/main/resources/web-data/js/graph-drawing.js:783-795 | exactly the edges between remaining vertices remain |
| Graph.RepliedDrawn | src/main/resources/web-data/js/graph-drawing.js:559-579 | an edge that was in the table before the eviction is in it afterwards if and only if no edge of that id has lost an end |
| Graph.Outcome | src/main/resources/web-data/js/graph-drawing.js:510-547 | after a reply its first vertices are there, nothing else is new, and what was evicted is older than what stayed |
| Graph.GoneNotDrawn | src/main/resources/web-data/js/graph-drawing.js:510-547 | what is evicted after a reply is none of the vertices it drew |
| Graph.WhatIsNew | src/main/resources/web-data/js/graph-drawing.js:514-546 | a vertex that is new after a reply has its id, its data and its `es` from it |
| Graph.AllRepliedDrawn | src/main/resources/web-data/js/graph-drawing.js:559-579 | every replied edge between vertices on the canvas is drawn if and only if no edge with the same edge id has lost an end |
| Graph.SpelledAlike | src/main/resources/web-data/js/graph-drawing.js:559-579 | an edge from "a" to "b-c" is lost with one from "a-b" to "c" |
| Graph.DrawnUnlessMisspelt | src/main/resources/web-data/js/graph-drawing.js:559-579 | so it is drawn unless an edge of the canvas before or of the reply, spelled the same, joins ids that are not both on the canvas |
| Graph.GraphD3.OnMessage | src/main/resources/web-data/js/graph-drawing.js:508-586 | after every reply: tables exact, ids unique, edges between drawn objects, saved ids those of the array, at most `max` vertices, the first `max` of the reply kept; a new vertex has its data and its `es` from the reply, one the reply does not draw is as it was, what went is older than what stayed, and each vertex that was there before is still on its circle |
| Graph.GraphD3.RemoveNonLatestVertices | src/main/resources/web-data/js/graph-drawing.js:821-826 | exactly the vertices of the last reply stay, with exactly the edges between them |
| Graph.GraphD3.RemoveOverflowingVertices | src/main/resources/web-data/js/graph-drawing.js:832-835 | the limit holds, and the oldest go, with exactly their edges |
| Graph.GraphD3.RemoveOrphans | src/main/resources/web-data/js/graph-drawing.js:850-861 | exactly the vertices with an edge stay, and all edges |
| Graph.GraphD3.Destroy | src/main/resources/web-data/js/graph-drawing.js:638-645 | canvas and tables are empty; the saved ids stay, and agree with the canvas if and only if there were none |
| Graph.GraphD3.RemoveAllVertices | src/main/resources/web-data/js/graph-drawing.js:840-845 | canvas, tables and saved ids are empty |
| Settings.SameCases | src/main/resources/web-data/js/main.js:121-135 | what equals a default under `==`: strings as they are, everything else as numbers, true being 1 and false 0 |
| Settings.MergeAssociates | src/main/resources/web-data/dependencies/jquery.js:318-380 | merging into the difference first makes no difference to what is seen |
| Settings.Extend | src/main/resources/web-data/dependencies/jquery.js:318-380 | the loop over the names merges two trees |
| Settings.HideDefaults | src/main/resources/web-data/js/main.js:121-135 | deleting in place leaves exactly what is neither a default nor an empty subtree |
| Settings.HideShows | src/main/resources/web-data/js/main.js:89-135 | reading puts back what hiding took away, up to the spelling of leaves that equal their default |
| Settings.HideCanonical | src/main/resources/web-data/js/main.js:121-135 | what is stored has no leaf that equals its default and no empty subtree |
| Settings.CanonicalUnique | src/main/resources/web-data/js/main.js:121-135 | two such differences that show the same settings are the same |
| Settings.SetThenGet | src/main/resources/web-data/js/main.js:66-94 | reading after writing gives the change merged into the previous view, with defaults spelled like defaults |
| Settings.SetThenGetExactly | src/main/resources/web-data/js/main.js:66-94 | whatever was stored or loaded, it is exactly that merge if and only if no leaf of the stored settings with the change merged in equals its default without being spelled like it |
| Settings.DefaultRespelled | src/main/resources/web-data/js/main.js:66-135 | with the default 10, setting the string "10" is read back as the number |
| Settings.SetAgainThenGet | src/main/resources/web-data/js/main.js:66-94 | over a difference that was itself set, it is exactly that merge if and only if the change spells no default in another way |
| Settings.Settings.Set | src/main/resources/web-data/js/main.js:66-82 | all this for the object, whether its difference was set or loaded, and the hash holds what is stored |
| Settings.Settings.Get | src/main/resources/web-data/js/main.js:89-94 | the defaults with the difference merged in |
| Settings.Settings.Reload | src/main/resources/web-data/js/main.js:56-111 | loading the hash gives back what was stored in it |
| Orders.Console.Order | src/main/resources/web-data/js/main.js:291-313 | the new request replaces the one waiting for its provider and changes no other |
| Orders.Replaces | src/main/resources/web-data/js/main.js:291-313 | an order does the same whether or not its provider was reset before, and leaves every other provider as it was |
| Orders.Console.ResetOrders | src/main/resources/web-data/js/main.js:276-280 | cancels request and callback of one provider and of no other |
| Orders.Console.Fire | src/main/resources/web-data/js/main.js:299-312 | what a timer sends is the last request for its provider that nothing cancelled; the callbacks and the requests of the others stay |
| Orders.Console.Receive | src/main/resources/web-data/js/main.js:228-231 | a message calls the callback of its provider's last order once, also if the connection was lost in between, lets it order and cancel, and deletes the entry only then; so the next callback for the provider is the right one unless the last thing the callback did about its provider was to order with a callback |
| Orders.CallbackSurvives | src/main/resources/web-data/js/main.js:228-231 | deleting the entry after the callback has run instead of before leaves the right callback if and only if the last thing it did about its provider was not to order from it with a callback |
| Orders.OrderedInVain | src/main/resources/web-data/js/main.js:228-231 | a callback that orders again from its provider: the request waits, its callback is gone |
| Orders.Console.Close | src/main/resources/web-data/js/main.js:247-249 | a lost connection leaves no request waiting, and every callback |
| Socket.StepInv | src/main/resources/web-data/dependencies/reconnecting-websocket.js:83-173 | every event keeps the object in one of three conditions: an inner socket is live, a reconnection waits, or it is closed for good |
| Socket.OneConnection | src/main/resources/web-data/dependencies/reconnecting-websocket.js:83-145 | live inner sockets plus pending reconnections are exactly one until the socket is closed, then none |
| Socket.Shuts | src/main/resources/web-data/dependencies/reconnecting-websocket.js:92-173 | `refresh`, `close` and the timeout shut the inner socket they are about: whatever follows, it is never open again |
| Socket.TimeoutWatches | src/main/resources/web-data/dependencies/reconnecting-websocket.js:92-126 | as long as a connection connects its timeout is running, and it is not once it is open or closed |
| Socket.TimesOutOnce | src/main/resources/web-data/dependencies/reconnecting-websocket.js:92-100 | a connection times out at most once |
| Socket.ClosedForGood | src/main/resources/web-data/dependencies/reconnecting-websocket.js:115-117 | a closed socket never changes again |
| Socket.HandlersAlternate | src/main/resources/web-data/dependencies/reconnecting-websocket.js:102-131 | the user's `onopen` and `onclose` alternate, except for the last `onclose` of a socket closed before it opened |
| Socket.StateTold | src/main/resources/web-data/dependencies/reconnecting-websocket.js:107-119 | `readyState` is OPEN exactly from `onopen` to `onclose` |
| Socket.CloseIsFinal | src/main/resources/web-data/dependencies/reconnecting-websocket.js:158-163 | after the user closed a connection only one `onclose` can come |
| Socket.CloseTakesEffect | src/main/resources/web-data/dependencies/reconnecting-websocket.js:158-163 | `close` is final, whatever follows, if and only if no reconnection is waiting; while one is, `close` changes nothing |
| Socket.ReopensAfterClose | src/main/resources/web-data/dependencies/reconnecting-websocket.js:112-163 | the run in which `close` came while a reconnection was waiting and the socket opens again |
| Socket.ClosedInVain | src/main/resources/web-data/dependencies/reconnecting-websocket.js:83-163 | the shortest run in which `close` comes in vain, and the socket opens afterwards |
| Socket.ReconnectingWebSocket.OnInnerClose | src/main/resources/web-data/dependencies/reconnecting-websocket.js:112-131 | the handler does what the machine does |
| Socket.ReconnectingWebSocket.OnTimeout | src/main/resources/web-data/dependencies/reconnecting-websocket.js:92-100 | so does the timeout |
| Socket.ReconnectingWebSocket.OnInnerOpen | src/main/resources/web-data/dependencies/reconnecting-websocket.js:102-110 | so does the open handler |
| Socket.ReconnectingWebSocket.Close | src/main/resources/web-data/dependencies/reconnecting-websocket.js:158-163 | so does `close` |
| Socket.ReconnectingWebSocket.OnReconnect | src/main/resources/web-data/dependencies/reconnecting-websocket.js:127-129 | so does the reconnection timer |
| Socket.ReconnectingWebSocket.Refresh | src/main/resources/web-data/dependencies/reconnecting-websocket.js:169-173 | so does `refresh` |
| Socket.ReconnectingWebSocket.Perform | src/main/resources/web-data/dependencies/reconnecting-websocket.js:83-173 | any event, done by the object, keeps the invariant from which the claims about whole runs follow |
| Collector.WriteUtilities | monitoring/app/actors/MessageCollector.java:226-260 | the loops write the lines of the specification |
| Collector.DigitsRead | monitoring/app/actors/MessageCollector.java:235-260 | the digits of a number stand for it, with no zero in front |
| Collector.FillerText | monitoring/app/actors/MessageCollector.java:235-260 | a filler reads as the time it stands for followed by the text of the repeated entry from its first semicolon on |
| Collector.RowsSampled | monitoring/app/actors/MessageCollector.java:235-249 | for one buffer: times rise, and gaps stay within 100 if and only if no entry at time 0 comes more than 100 before the next |
| Collector.GapAfterZero | monitoring/app/actors/MessageCollector.java:235-249 | a buffer with entries at 0 and 200, between which nothing is filled in |
| Collector.RowsHold | monitoring/app/actors/MessageCollector.java:235-249 | every entry is written once and in order, and every other line repeats the data of the last entry before it |
| Collector.WrittenInOrder | monitoring/app/actors/MessageCollector.java:226-260 | the same with the continuation to `maxRuntime`, which ends within 100 of it |
| Collector.RunSampled | monitoring/app/actors/MessageCollector.java:226-270 | over a whole run: the lines of an agent rise by at most 100 each if and only if no buffer of the agent leaves a gap after time 0 and each starts after the last line of the one before, by at most 100 |
| Collector.GapBetweenChunks | monitoring/app/actors/MessageCollector.java:226-270 | two buffers without a gap in either, written one after the other, leave a gap |
| Collector.PutKeeps | monitoring/app/actors/MessageCollector.java:157-158 | buffering a report adds it and takes away only what it overwrites |
| Collector.ConservedPut | monitoring/app/actors/MessageCollector.java:151-158 | no report of any agent is lost or doubled by buffering |
| Collector.ConservedFlush | monitoring/app/actors/MessageCollector.java:268-269 | nor by writing a buffer |
| Collector.MessageCollector.Update | monitoring/app/actors/MessageCollector.java:151-165 | a buffer never holds more than 100 reports, a full one is written, and the reports are conserved |
| Collector.MessageCollector.WriteAll | monitoring/app/actors/MessageCollector.java:204-219 | every buffer is written once, continued to the last timestamp of all; then every accepted report was written or overwritten in its buffer |
| Collector.MessageCollector.LastTimepoint | monitoring/app/actors/MessageCollector.java:206-213 | the last timestamp of all buffers |

## Left out

- Callbacks.StepInv: the runs do not go on after `empty()` in a running callback (`Callbacks.EmptyWhileFiring` says what it does to the loop), nor after a callback that throws.
- Callbacks.AddInv: nested arrays of callbacks are given as one flat sequence.
- Deferreds.DeferredStepInv: the Deferred is a value with a step function rather than an object; its three lists are those that `CallbackLists` proves equal in place.  `then`, `pipe` and `always` are not modelled.
- Whens.MasterOutcome: `notified` also counts notifications that wait on the master's own list when it settles, which its lock discards (jquery.js:1129-1135); a single argument that is itself a Deferred (returned as it is) is not modelled, nor the contexts that go with the values; several values of one subordinate are one value.
- Dsv.RoundTrip: the delimiters `]`, `\` and `-`, which would change the meaning of the quoting pattern, are excluded, as are quote, CR and LF; the row function `f`, `dsv.parse` and `dsv.format` are not modelled.
- Interpolate.InterpolateString: strings are given as their numbers and the text between them; the pattern for numbers and the formatting of numbers are abstract.
- Treemap.LayRows: the ratio in `worst` is an arbitrary score that is infinite at the start of a row; sticky mode and areas that are not numbers are not modelled; `round` is any function that does not turn a non-negative number negative.
- Quadtree.Inserted: coordinates are exact reals, so that points at NaN, which the code skips, do not occur; a point whose descent never ends is excluded, as the code then recurses without end (`Quadtree.InsertionEnds`).
- Quadtree.Build: the box of a tree without points, infinite in the code, is an arbitrary one; a given extent must be one in which each insertion ends.
- Quadtree.Node.Accumulate: charges are of one sign other than 0; the centre of a tree without points, which is not a number in the code, is absent.  The repulsion that reads the sums is not modelled.
- DataJoin.Bind: groups have no holes and the join is by key; the join by index and nested groups are not modelled.
- Timers.Queue.Step: how often a frame is requested, nested calls of `d3.timer.flush` from a callback, and infinite delays are not modelled.
- Graph.GraphD3.OnMessage: the limit is a natural number and a reply has each vertex id once; colours, sizes, medians, messages to the user and the force layout are not modelled.
- Graph.GraphD3.Restart: a circle leaves at once rather than after a fade of 100 ms, during which `$("circle")` would still find it; the lines of the edges are not modelled.
- Subordinates.WhenSettles: the callbacks of the master are not followed, what they do to the Deferreds is like anything else that is done to them; the case of one argument is that of `Whens`.
- Graph.GraphD3.Destroy: the cancelled order is the business of module `Orders`, the DOM is not modelled.
- Settings.Settings.Set: the change is a tree shaped like the defaults, without null, arrays or new subtrees (the code throws on a new non-empty subtree); changes given as functions and the parsing of the hash are not modelled.
- Orders.Console.Order: delays are not modelled, a timer may fire at any time; sending that fails is not modelled.
- Socket.StepInv: the browser opens an inner socket only while it connects and closes it once, some time after `close`; messages, errors, `send` and the address are not modelled.
- Collector.WrittenInOrder: texts contain a semicolon, as those of the sender do; a write that fails, and the path of an empty buffer with a `maxRuntime`, which throws and writes nothing, are modelled as writing nothing.
- Collector.MessageCollector.WriteAll: conflict counts, statistics and the start and finish lines are not modelled.
- The quadtree's and the interpolator's neighbours in d3 (geography, hulls, Voronoi, colours, easing), Sizzle, jQuery's events, ajax and animation: trigonometry, floating point or browser behaviour.
- The play controllers, the user actor, layout, line charts, break conditions and state panels: presentation or plumbing with little state.
