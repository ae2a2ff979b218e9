# memoria: the game session engine in Dafny

memoria is a browser memory game ("concentration"): a grid of face-down image
tiles, each showing one of a set of paired food icons. The player turns over two
tiles at a time. A pair with equal icons is retired for good after 400 ms. A
mismatched pair is turned face down again after 800 ms. At the start of each game
an intro chain walks the board in order: it requests each tile's icon asset and
turns the tile face down. Input opens only when the chain runs off the end of the
board. A restart button deals a new game. An easter egg shows every unmatched
tile while the `r` key is held down.

This project models the session engine of `ts/index.ts`:

- the `Piece` operations `show`, `hide`, `check`, `enable`, `disable`, `start`,
  `equals` and the asset callback of `startDataShow`;
- the `DataGame` record and `createDataGame`;
- the click handler and the two resolver timers it schedules;
- `start()` with its self-scheduling `interval` chain;
- the reveal-all and hide-all handlers of the easter egg.

It is written in two layers.

- `SessionModel` (`session_model.dfy`) is a state machine over values.
  - `State` holds the `DataGame` fields, the pieces of the live list and what each
    image element displays.
  - It also holds every callback the browser still owes the page: the pending
    resolver timer, the pending 50 ms intro-step timers and the pending asset
    requests.
  - Each callback is an event, and each event is one function. `Inv` is the slot
    discipline, and every event preserves it.
  - `Run` plays a sequence of events.
- `Game` (`game.dfy`) is the same engine written imperatively.
  - A `Session` object holds the `DataGame` fields.
  - The pieces of the current list are records in an array that each restart
    rebuilds.
  - The board's image elements are an array of faces that outlives restarts.
  - Every event handler is proved to perform exactly the `SessionModel`
    transition on `Abs()` and to keep `Valid()`. These are the constructor,
    `Click`, the two resolver callbacks, `FetchDone`, `IntroStep`, `Restart`,
    `PeekStart` and `PeekEnd`.
  - `Interval` and `ResetList` are parts of `start()`. Each is proved to make its
    own change to `Abs()`.
  - `CreatePieceList` and `DisableAll` are loops, proved against the piece
    records they produce.

`Tiles` (`tiles.dfy`) gives one piece's state and the effect of its operations on
its element. `SessionProperties` (`session_properties.dfy`) proves what sequences
of events lead to.

Points where the code's behaviour is easy to misread:

- The selection slots are cleared when the resolver timer fires, not when it is
  scheduled. While a comparison is pending, every further click is rejected.
- A resolver cannot fire after a restart, because `start()` cancels it with
  `clearTimeout`. Its null checks therefore always pass (`PendingResolverHasPair`).
- Intro steps and asset callbacks carry no generation check. A step of an earlier
  chain that fires after a restart runs `interval` on the new list. When its index
  is past the end, it opens input while the new chain is still running
  (`StaleStepOpensInputEarly`).
- The intro chain only turns tiles face down. It does not reveal them first.
- On a board with no elements, `start()` opens input at once.
- `disable()` runs on every piece at each restart, and nothing calls `enable()`.
  The `enabled` flag of a piece therefore never gates a click.

## Model

| member | source | states |
|---|---|---|
| Tiles.Toggled | ts/index.ts:78-92 | after `toogle(name, data)` the element announces `name` in its alt text (the name reads back from it) and displays `data` |
| Tiles.Placeholder | ts/index.ts:106-116 | the face-down face announces `pergunta` and displays the shared placeholder asset |
| Tiles.Shown | ts/index.ts:94-104 | `show` makes the element announce the piece's own name and display its asset when that has loaded; otherwise the element is unchanged |
| Tiles.Hidden | ts/index.ts:106-116 | `hide` makes the element announce `pergunta` and display the placeholder when that has loaded; otherwise the element is unchanged |
| Tiles.NewPiece | ts/index.ts:14-32 | a new piece carries the name it was dealt, is unmatched and enabled, and has no asset |
| Tiles.Checked | ts/index.ts:66-76 | `check` sets the piece matched and changes nothing else about it |
| Tiles.Enabled | ts/index.ts:149-161 | `enable` sets the piece enabled and changes nothing else about it |
| Tiles.Disabled | ts/index.ts:163-175 | `disable` sets the piece disabled and changes nothing else about it |
| Tiles.Loaded | ts/index.ts:34-42 | the loader callback caches exactly the delivered data as the piece's asset, `null` included, and changes nothing else |
| Tiles.SameIconIsEquivalence | ts/index.ts:177-181 | `equals` is reflexive, symmetric and transitive, and no piece operation changes whom a piece pairs with |
| Tiles.HideUndoesShow | ts/index.ts:94-116 | once the placeholder has loaded, hiding a shown element leaves the placeholder whatever was displayed before; hiding is idempotent |
| Tiles.ShowRevealsIcon | ts/index.ts:78-104 | a piece with a loaded asset shows its own icon, independent of the previous display; with no asset (not loaded or `null`), `show` changes nothing |
| Tiles.ShownDiffersFromPlaceholder | ts/index.ts:78-116 | a shown icon's alt text equals the placeholder's exactly when the icon is named `pergunta` |
| Tiles.EnableUndoesDisable | ts/index.ts:149-175 | `enable` undoes `disable` on an enabled piece; both set the flag and leave name, match and asset alone |
| SessionModel.CreateDataGame | ts/index.ts:221-237 | the fresh record is well formed: input closed, no list, timeout 0, both slots empty, nothing pending, the board untouched |
| SessionModel.Judge | ts/index.ts:274-300 | the scheduled resolver is the 400 ms match closure exactly when the two names are equal |
| SessionModel.Click | ts/index.ts:252-313 | a click is ignored exactly when input is closed or there is no list. A matched piece is rejected, and a rejected or ignored click changes nothing. The first slot takes any unmatched piece. The second slot takes only a different unmatched piece while it is empty, and schedules a Match exactly when the names are equal. Only the slots, the resolver, the timeout (only when a resolver is scheduled) and the clicked element's face change; that face flips to the piece's icon |
| SessionModel.ResolverFires | ts/index.ts:277-300 | both slots end empty and no resolver is pending. On a match exactly the pair becomes matched. On a mismatch exactly the pair's elements show the placeholder, when it has loaded. Nothing else changes |
| SessionModel.FetchDone | ts/index.ts:34-42 | the request leaves the pending list and schedules its `next` step. Only the requesting piece, if still live, caches the delivered data; nothing else changes |
| SessionModel.StartPiece | ts/index.ts:134-147 | `start` on piece `k` requests its asset, continuing the chain at `k + 1`, and turns element `k` face down if the placeholder has loaded. Nothing else changes |
| SessionModel.Interval | ts/index.ts:331-345 | `interval(k)` opens input exactly when `k` is at or past the end of the live list. Otherwise it starts piece `k`. Nothing else changes |
| SessionModel.IntroStep | ts/index.ts:331-345 | the step timer is consumed. Input opens exactly when the step index is at or past the end of the live list. Otherwise the step requests piece `k`'s asset and hides element `k`. Nothing else changes |
| SessionModel.DisabledPieces | ts/index.ts:193-205 | `createPieceList` followed by `disable` on each piece gives one piece per dealt name, carrying that name, unmatched, disabled, with nothing loaded |
| SessionModel.Restart | ts/index.ts:317-351 | a fresh disabled, unmatched list with the dealt names; input closed, and open at once only on an empty board. Resolver cancelled, timeout 0, slots empty. Earlier requests become stale, earlier steps stay pending, and piece 0 is started |
| SessionModel.Init | ts/index.ts:243-354 | after the first `start()` the session is well formed, has its list and no old steps; on a non-empty board, input stays closed with only piece 0's request pending |
| SessionModel.PeekStart | ts/index.ts:374-392 | with input enabled, every unmatched element in neither slot shows its icon if loaded. An element whose asset has not loaded, every other element and all other state are unchanged |
| SessionModel.PeekEnd | ts/index.ts:394-412 | every unmatched element in neither slot shows the placeholder if it has loaded; every other element and all other state are unchanged |
| SessionModel.Step | ts/index.ts:240-414 | every handler and callback keeps the slot discipline, the board size and the placeholder, and never loses the list |
| SessionModel.Run | ts/index.ts:240-414 | the same holds for any sequence of events |
| SessionProperties.StepKeepsMatches | ts/index.ts:66-76 | no event other than a restart clears a piece's `checked` flag or renames a piece |
| SessionProperties.CheckedNeverCleared | ts/index.ts:66-76 | across any events without a restart, matched pieces stay matched and names never change |
| SessionProperties.NoMatchWithoutClicks | ts/index.ts:268-300 | with no resolver pending and nothing matched, no sequence of events without clicks (restarts included) matches a piece |
| SessionProperties.RestartCancelsPendingPair | ts/index.ts:317-323 | after a restart, no event without a click matches a piece of the new list, even if a comparison was pending |
| SessionProperties.MatchedPairRetired | ts/index.ts:261-286 | two clicks on different unmatched pieces with equal names, then the timer, leave both matched with the slots empty |
| SessionProperties.MismatchedPairConcealed | ts/index.ts:268-300 | two clicks on pieces with different names, then the timer, leave neither matched, the slots empty and both elements face down |
| SessionProperties.ReselectRejected | ts/index.ts:268-306 | clicking the piece already in the first slot is rejected and changes nothing |
| SessionProperties.FullSelectionRejects | ts/index.ts:268-309 | while a comparison is pending, every click is ignored or rejected and changes nothing |
| SessionProperties.PendingResolverHasPair | ts/index.ts:272-300 | a pending resolver always has both slots filled with different pieces |
| SessionProperties.InputOpensOnlyAtChainEnd | ts/index.ts:331-345 | closed input is opened only by an intro step past the end of the list or by a restart of an empty board |
| SessionProperties.ChainLink | ts/index.ts:331-345 | one step plus its completed request caches the delivered data on piece `k`, hides element `k` and schedules step `k + 1` |
| SessionProperties.ChainOpensInput | ts/index.ts:331-345 | if every asset arrives, each with its own data, the chain from step `k` opens input. Every piece from `k` on holds its own delivered asset and is face down. The earlier pieces and the slots are left alone |
| SessionProperties.RestartThenIntroOpensInput | ts/index.ts:317-351 | after a restart whose assets all arrive, each with its own data, the chain ends with input open. Every piece is named as dealt, unmatched, holding its own delivered asset and face down. The slots are empty and no resolver is pending |
| SessionProperties.StaleStepOpensInputEarly | ts/index.ts:331-345 | a step of an earlier chain that fires after a restart, with its index past the end, opens input while piece 0's request is still pending |
| Game.CreatePieceList | ts/index.ts:193-205 | returns a fresh array with one new, unmatched, enabled, unloaded piece per name |
| Game.DisableAll | ts/index.ts:329 | every piece of the list is disabled and otherwise unchanged |
| Game.Session.constructor | ts/index.ts:243-354 | the session equals `SessionModel.Init` of the board, the placeholder and the dealt names |
| Game.Session.Click | ts/index.ts:252-313 | the new state and the reaction are those of `SessionModel.Click`; the session stays valid |
| Game.Session.MatchResolverFires | ts/index.ts:277-286 | the new state is `SessionModel.ResolverFires` of the old state on a pending match |
| Game.Session.MismatchResolverFires | ts/index.ts:291-300 | the new state is `SessionModel.ResolverFires` of the old state on a pending mismatch |
| Game.Session.FetchDone | ts/index.ts:34-42 | the new state is `SessionModel.FetchDone`; a stale request writes only into its discarded list |
| Game.Session.Interval | ts/index.ts:331-345 | the new state is `SessionModel.Interval` on the live list, and every request still points into its own list |
| Game.Session.IntroStep | ts/index.ts:337 | the new state is `SessionModel.IntroStep` |
| Game.Session.ResetList | ts/index.ts:319-329 | input closed, resolver cancelled, timeout 0, and a fresh disabled list; earlier requests become stale |
| Game.Session.Restart | ts/index.ts:317-351 | the new state is `SessionModel.Restart`; the session stays valid |
| Game.Session.PeekStart | ts/index.ts:374-392 | the new board is that of `SessionModel.PeekStart` |
| Game.Session.PeekEnd | ts/index.ts:394-412 | the new board is that of `SessionModel.PeekEnd` |

## Left out

- Animations (`finish`, `animate`, `fadeTo`) are not modelled. This includes the `wrong()` shake and the fade on `check`, `enable` and `disable`. A rejected click is reported as the `Wrong` reaction.
- `toogle` swaps `src` 150 ms into its animation, while alt and title change at once. The model applies the whole face change immediately.
- `getDataURL` (the asset loader) is not part of this model. Each completion is an event that carries the delivered data, which may be `null`. Requests that never complete simply stay pending.
- `shuffle` and `createPairNameList` are not part of this model. The model assumes they deal one name per element. The dealt names are therefore a parameter of `start()`, and `Restart` requires exactly one name per element.
- Real timer durations and the numeric handles of `setTimeout` are not modelled. The handle a click stores is a parameter. Timers fire only as events, in any order the events list.
- The jQuery event wiring is not modelled. Clicks, the restart button and the key handlers are events.
- The easter egg's `over` flag (the pointer over `#link`) is not modelled. `PeekPressed` stands for an `r` keydown while the pointer is over the link, and `PeekReleased` for an `r` keyup. Other keys do nothing, so they are not events.
- The `Piece` class becomes records in an array. Object identity is the pair (list, index). `show` returning `this`, and `hide`/`check` returning `null`, become slot assignments.
- The keyup handler would throw on a null `pieceList`. Once the session exists it always has a list, so `PeekEnd` on a session without a list is a no-op.
