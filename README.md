# Daggerheart hotbar item macros and the sheet/component props bridge

A Dafny model of two small stateful protocols of the Daggerheart game system
for Foundry VTT.

**Item macros** (`item_macro.dfy`, module `ItemMacro`) model
`createItemMacro` and `rollItemMacro` of `module/main.ts`. When an Item is
dropped on the hotbar, the handler checks two things: the drop must be an Item,
and its uuid must be owned (contain `Actor.` or `Token.`). It then resolves the
item and builds the command `game.daggerheart.rollItemMacro("<uuid>");`. It
reuses the first macro with the item's name and that command, or creates one.
Then it assigns that macro to the slot and returns `false`. When the command
runs, the uuid is resolved again. A missing or unowned item gives a warning;
an owned item is rolled.

The host globals are the value `Host`:
- the document registry, `items`, a map from uuid to item (an absent key is a
  uuid that resolves to nothing);
- the macro collection, `macros`, a sequence;
- the user's hotbar, `hotbar`, a map from slot to the macro's index in
  `macros`;
- the notification log, `warnings`;
- the log of triggered rolls, `rolled`.

The two operations are the functions `Drop` and `Roll` over `Host`. The class
`Game` holds the same state in mutable fields. Its methods follow the source's
statements: the `let macro` find-or-create, the append to the collection and
the slot write. They are proved to leave `Game` in the state `Drop` or `Roll`
gives. The result of `createItemMacro` is `Some(false)` after an assignment.
It is `None` for the two early returns, which yield nothing or the
notification and never `false`.

**Props bridge** (`svelte_bridge.dfy`, module `SvelteBridge`) models
`injectSvelteComponent` of `module/sheets/utils/svelte-helpers.ts`. It uses
these classes:
- `Document`: fields that are patched in place, and a count of host
  re-renders;
- `Props`: the envelope `{data, update}`;
- `Component`: the mounted component, which records the `data` it reads at
  each notification;
- `Bridge`: the closure state of one injection.

`Bridge.Inject` builds the envelope from `getData()` of the current fields,
sets its `update` to the bridge and mounts the component once. `Bridge.Update`
is the callback. It persists `{property: value}` with `render: false`. Only on
success does it overwrite `props.data` with fresh data and then notify the
component. The storage outcome is a parameter, and a failure is returned to
the caller. `BridgeView`, `UpdateStep` and `Replay` describe the same effect as
values, so that lemmas can reason about sequences of calls.

## Model

| member | source | states |
|---|---|---|
| ItemMacro.Includes | module/main.ts:121 | `includes` is true exactly when the substring occurs at some index |
| ItemMacro.CommandRoundTrip | module/main.ts:130 | running the stored command passes exactly the dropped uuid to the roll entry point |
| ItemMacro.CommandInjective | module/main.ts:130 | two uuids give the same command if and only if they are equal |
| ItemMacro.FindMacro | module/main.ts:131-133 | `find` returns the first macro with the item's name and the command, or none when no macro matches |
| ItemMacro.NewMacro | module/main.ts:135-141 | the created macro has the item's name or "Nameless Macro", type "script", the item's image, the command and the flag `daggerheart.itemMacro = true` |
| ItemMacro.Drop | module/main.ts:118-145 | a drop never changes the items or the roll log, keeps every existing macro in place and adds at most one |
| ItemMacro.NonItemDropIsIgnored | module/main.ts:120 | a drop whose type is not "Item" changes nothing and returns nothing |
| ItemMacro.UnownedDropOnlyWarns | module/main.ts:121-125 | a uuid with neither "Actor." nor "Token." adds exactly the ownership warning; macros and hotbar are unchanged |
| ItemMacro.OwnedDropAssignsSlot | module/main.ts:127-144 | after an owned drop the result is `false`, no warning is added, the slot holds a macro with the item's name (or "Nameless Macro") whose command targets the uuid, and no other slot is written |
| ItemMacro.ExistingMacroIsReused | module/main.ts:131-143 | when a macro with the item's name and command exists, the collection is unchanged, the slot gets the first such macro and no other slot is written |
| ItemMacro.NewMacroIsAppended | module/main.ts:134-143 | when none matches, exactly the new macro is appended and the slot gets it |
| ItemMacro.SecondDropReuses | module/main.ts:131-143 | a second drop of a resolvable item onto any slot leaves the macro collection as the first left it; only that slot changes |
| ItemMacro.RepeatedDropsKeepOneMacro | module/main.ts:131-143 | N >= 1 drops of a resolvable item leave exactly one matching macro, create at most one, and add no warning |
| ItemMacro.UnresolvedDropsAccumulate | module/main.ts:131-142 | each drop of an owned uuid that resolves to no item appends another "Nameless Macro", because `item?.name` never equals a macro's name |
| ItemMacro.Roll | module/main.ts:152-171 | running a macro never changes the items, the macros or the hotbar |
| ItemMacro.RollWarnsOrRolls | module/main.ts:159-169 | a missing or parentless item gives exactly one warning naming the item or the uuid, and no roll; an owned item is rolled exactly once, with no warning |
| ItemMacro.StaleWarningNames | module/main.ts:162-165 | the stale-macro warning contains the item name, or the uuid when there is no item |
| ItemMacro.DropThenRoll | module/main.ts:130-169 | the macro an owned drop puts in the slot targets the dropped uuid, and running it rolls that item while it is owned |
| ItemMacro.Game.CreateItemMacro | module/main.ts:118-145 | the imperative handler leaves the host state and result that `Drop` gives |
| ItemMacro.Game.RollItemMacro | module/main.ts:152-171 | the imperative entry point leaves the host state that `Roll` gives |
| SvelteBridge.Document.Update | module/sheets/utils/svelte-helpers.ts:65 | a persisted patch is merged into the fields and re-renders only if asked; a failure changes nothing |
| SvelteBridge.Component.Refresh | module/sheets/utils/svelte-helpers.ts:70 | a notification makes the component read the envelope's current data |
| SvelteBridge.Bridge.Inject | module/sheets/utils/svelte-helpers.ts:52-82 | the envelope starts with `getData()` of the current fields and the callback; the component is created once with that envelope; the document is untouched |
| SvelteBridge.Bridge.Update | module/sheets/utils/svelte-helpers.ts:63-71 | the callback persists `{property: value}` without a re-render; on success the data is refreshed and then the component notified; on failure the error is returned and nothing changes; the envelope keeps its identity and callback |
| SvelteBridge.SuccessfulUpdateRefreshes | module/sheets/utils/svelte-helpers.ts:65-70 | after a successful update only `property` changed, the data is the snapshot of the new fields, and the component was shown that data once |
| SvelteBridge.FailedUpdateIsIsolated | module/sheets/utils/svelte-helpers.ts:65-70 | a failed update leaves fields, data and notifications unchanged |
| SvelteBridge.NotifiedOncePerSuccess | module/sheets/utils/svelte-helpers.ts:65-70 | over any sequence of calls the component is notified exactly once per accepted edit and earlier notifications are kept |
| SvelteBridge.ReplayKeepsSynced | module/sheets/utils/svelte-helpers.ts:65-70 | once an edit is accepted, the data is the snapshot of the current fields and the last thing the component saw; synced stays synced |
| SvelteBridge.FailuresChangeNothing | module/sheets/utils/svelte-helpers.ts:65-70 | a sequence of refused edits leaves everything as it was |

## Left out

- The init hook (the `game.daggerheart` object, `CONFIG` tables, the initiative formula, data models, sheet registration), the `toLowerCase` Handlebars helper, template preloading and the `hotbarDrop` hook wiring are host configuration, not part of the protocols.
- `Item.fromDropData` is a lookup in the `items` map. Document loading and its asynchrony are not modelled.
- `ui.notifications.warn` is an append to the `warnings` log. `item.roll()` is an append of the uuid to the `rolled` log; what a roll does is not modelled.
- ItemMacro.Game.CreateItemMacro: `Macro.create` always succeeds in the model. When the host returns no macro, the source assigns `null` and clears the slot; that case is not modelled.
- `assignHotbarMacro` is a map write. The host's own slot-range checks and its handling of the macro's previous slot are not modelled.
- ItemMacro.CommandRoundTrip: it models running the command as stripping the fixed prefix and suffix. JavaScript string-literal escapes are not modelled, so a uuid containing `"` or `\` would not be read back the same way. Foundry uuids contain neither.
- The macro's `img` is `None` when the item is missing, which stands for `undefined`. Foundry's default macro image is not modelled.
- `html.find("form")[0]` and the Svelte mount target are DOM details and are left out. `app.$$.update()` is `Component.Refresh`, which records the data the component reads.
- A document `update` patch is merged key by key. Foundry's expansion of dotted field paths into nested objects is not modelled; a property is one key.
- Promise scheduling is not modelled. Overlapping callback calls and the race between concurrent drops, which could create two matching macros, are not modelled either. Each call is one sequential step.
- ItemMacro.RepeatedDropsKeepOneMacro: assumes at most one matching macro exists before the drops, the at-most-one invariant of the macro collection; with two matches already present the source keeps both.
- Teardown of the sheet and in-flight persistence after teardown are not modelled.
