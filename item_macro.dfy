/** Hotbar item macros of the Daggerheart system (module/main.ts).

    Dropping an owned Item on the hotbar finds or creates a script macro whose
    command calls `rollItemMacro` with the item's uuid, and assigns it to the
    slot. Running that command later re-resolves the uuid and rolls the item,
    or warns that the macro is stale.

    The host (document registry, macro collection, user hotbar, notification
    area, item rolls) is modelled as the value `Host`, and the operations as
    the functions `Drop` and `Roll` over it. The class `Game` holds the same
    state in mutable fields and runs the source's imperative steps; its
    methods are proved to agree with `Drop` and `Roll`.
 */
module ItemMacro {

  datatype Option<T> = None | Some(value: T)

  /** An Item document as far as the macro workflow reads it. `parent` is the
      owning Actor's id when the item is owned. */
  datatype Item = Item(name: string, img: string, parent: Option<string>)

  /** The payload of a hotbar drop: the dragged document's type and uuid. */
  datatype DropData = DropData(kind: string, uuid: string)

  /** A macro record of the host's macro collection. */
  datatype Macro = Macro(name: string, kind: string, img: Option<string>, command: string, flags: map<string, bool>)

  /** The host state the workflow touches. `hotbar` maps a slot to the index of
      its macro in `macros`; `warnings` is the notification log and `rolled`
      records, in order, the uuid of every item whose roll was triggered. */
  datatype Host = Host(
    items: map<string, Item>,
    macros: seq<Macro>,
    hotbar: map<int, nat>,
    warnings: seq<string>,
    rolled: seq<string>)

  /** The host after a drop, and what the drop handler returned: `Some(false)`
      once a macro was assigned, `None` for the two early returns (nothing,
      or the notification). */
  datatype Step = Step(host: Host, result: Option<bool>)

  const ItemMacroFlag := "daggerheart.itemMacro"
  const NamelessMacro := "Nameless Macro"
  const OwnedOnlyWarning := "You can only create macro buttons for owned Items"
  const CommandPrefix := "game.daggerheart.rollItemMacro(\""
  const CommandSuffix := "\");"
  const StalePrefix := "Could not find item "
  const StaleSuffix := ". You may need to delete and recreate this macro."

  // ---------------------------------------------------------------------
  // Substring test (String.prototype.includes)
  // ---------------------------------------------------------------------

  /** `sub` occurs in `s` starting at index `i`. */
  predicate OccursAt(s: string, sub: string, i: int)
  {
    0 <= i && i + |sub| <= |s| && s[i..i + |sub|] == sub
  }

  /** `s.includes(sub)`. */
  function Includes(s: string, sub: string): (r: bool)
    ensures r <==> exists i :: OccursAt(s, sub, i)
    decreases |s|
  {
    if |sub| > |s| then
      assert forall i :: !OccursAt(s, sub, i);
      false
    else if s[..|sub|] == sub then
      assert OccursAt(s, sub, 0);
      true
    else
      ShiftOccurrence(s, sub);
      Includes(s[1..], sub)
  }

  /** An occurrence in `s` past index 0 is an occurrence in `s[1..]`, shifted by one. */
  lemma ShiftOccurrence(s: string, sub: string)
    requires |s| > 0 && !OccursAt(s, sub, 0)
    ensures (exists i :: OccursAt(s, sub, i)) <==> (exists j :: OccursAt(s[1..], sub, j))
  {
    forall i | OccursAt(s, sub, i)
      ensures OccursAt(s[1..], sub, i - 1)
    {
      assert s[1..][i - 1..i - 1 + |sub|] == s[i..i + |sub|];
    }
    forall j | OccursAt(s[1..], sub, j)
      ensures OccursAt(s, sub, j + 1)
    {
      assert s[1..][j..j + |sub|] == s[j + 1..j + 1 + |sub|];
    }
  }

  /** The ownership guard: the uuid names an item embedded in an Actor or a Token. */
  predicate IsOwnedUuid(uuid: string)
  {
    Includes(uuid, "Actor.") || Includes(uuid, "Token.")
  }

  // ---------------------------------------------------------------------
  // The macro command and its inverse
  // ---------------------------------------------------------------------

  /** The script a drop stores in its macro: a call of the roll entry point
      with the uuid as a string literal. */
  function MacroCommand(uuid: string): string
  {
    CommandPrefix + uuid + CommandSuffix
  }

  /** The uuid that running `command` passes to the roll entry point, when
      `command` has the shape `MacroCommand` builds. */
  function CommandTarget(command: string): Option<string>
  {
    if |command| >= |CommandPrefix| + |CommandSuffix|
       && command[..|CommandPrefix|] == CommandPrefix
       && command[|command| - |CommandSuffix|..] == CommandSuffix
    then Some(command[|CommandPrefix|..|command| - |CommandSuffix|])
    else None
  }

  /** Running a stored command reaches the item it was built for. */
  lemma CommandRoundTrip(uuid: string)
    ensures CommandTarget(MacroCommand(uuid)) == Some(uuid)
  {
  }

  /** Distinct uuids give distinct commands. */
  lemma CommandInjective(u: string, v: string)
    ensures MacroCommand(u) == MacroCommand(v) <==> u == v
  {
    if MacroCommand(u) == MacroCommand(v) {
      CommandRoundTrip(u);
      CommandRoundTrip(v);
    }
  }

  // ---------------------------------------------------------------------
  // Finding and creating the macro
  // ---------------------------------------------------------------------

  /** `Item.fromDropData`: the item at `uuid`, or none when no document exists there. */
  function Resolve(items: map<string, Item>, uuid: string): Option<Item>
  {
    if uuid in items then Some(items[uuid]) else None
  }

  /** `item?.name`: the name compared against the macros, absent with the item. */
  function NameOf(item: Option<Item>): Option<string>
  {
    match item
    case Some(it) => Some(it.name)
    case None => None
  }

  /** The find predicate: same name as the item and the same command. A macro's
      name is always a string, so it never equals the name of a missing item. */
  predicate Matches(m: Macro, name: Option<string>, command: string)
  {
    name.Some? && m.name == name.value && m.command == command
  }

  /** `macros.find(...)`: the index of the first matching macro. */
  function FindMacro(macros: seq<Macro>, name: Option<string>, command: string): (r: Option<nat>)
    ensures r.Some? ==> r.value < |macros| && Matches(macros[r.value], name, command)
    ensures r.Some? ==> forall j :: 0 <= j < r.value ==> !Matches(macros[j], name, command)
    ensures r.None? ==> forall j :: 0 <= j < |macros| ==> !Matches(macros[j], name, command)
  {
    if |macros| == 0 then None
    else if Matches(macros[0], name, command) then Some(0)
    else
      match FindMacro(macros[1..], name, command)
      case None => None
      case Some(k) => Some(k + 1)
  }

  /** The record `Macro.create` receives when no macro matches. */
  function NewMacro(item: Option<Item>, command: string): (m: Macro)
    ensures m.name == (if item.Some? then item.value.name else NamelessMacro)
    ensures m.img == (if item.Some? then Some(item.value.img) else None)
    ensures m.kind == "script" && m.command == command && m.flags == map[ItemMacroFlag := true]
  {
    match item
    case Some(it) => Macro(it.name, "script", Some(it.img), command, map[ItemMacroFlag := true])
    case None => Macro(NamelessMacro, "script", None, command, map[ItemMacroFlag := true])
  }

  /** The number of macros matching `name` and `command`. */
  function CountMatches(macros: seq<Macro>, name: Option<string>, command: string): nat
  {
    if |macros| == 0 then 0
    else CountMatches(macros[..|macros| - 1], name, command)
         + (if Matches(macros[|macros| - 1], name, command) then 1 else 0)
  }

  lemma CountMatchesAppend(macros: seq<Macro>, m: Macro, name: Option<string>, command: string)
    ensures CountMatches(macros + [m], name, command)
            == CountMatches(macros, name, command) + (if Matches(m, name, command) then 1 else 0)
  {
  }

  /** No matching macro exactly when `FindMacro` finds none. */
  lemma {:induction false} CountMatchesZero(macros: seq<Macro>, name: Option<string>, command: string)
    ensures CountMatches(macros, name, command) == 0 <==> forall j :: 0 <= j < |macros| ==> !Matches(macros[j], name, command)
  {
    if |macros| > 0 {
      var init := macros[..|macros| - 1];
      CountMatchesZero(init, name, command);
      assert forall j :: 0 <= j < |init| ==> init[j] == macros[j];
    }
  }

  // ---------------------------------------------------------------------
  // The two operations on the host
  // ---------------------------------------------------------------------

  /** `createItemMacro(data, slot)`: a drop never touches the items or the
      roll log, and never removes or rewrites an existing macro; it adds at
      most one. */
  function Drop(h: Host, data: DropData, slot: int): (s: Step)
    ensures s.host.items == h.items && s.host.rolled == h.rolled
    ensures |h.macros| <= |s.host.macros| <= |h.macros| + 1 && s.host.macros[..|h.macros|] == h.macros
  {
    if data.kind != "Item" then Step(h, None)
    else if !IsOwnedUuid(data.uuid) then
      Step(h.(warnings := h.warnings + [OwnedOnlyWarning]), None)
    else
      var item := Resolve(h.items, data.uuid);
      var command := MacroCommand(data.uuid);
      match FindMacro(h.macros, NameOf(item), command)
      case Some(i) => Step(h.(hotbar := h.hotbar[slot := i]), Some(false))
      case None =>
        Step(h.(macros := h.macros + [NewMacro(item, command)], hotbar := h.hotbar[slot := |h.macros|]), Some(false))
  }

  /** The text of the stale-macro warning for an item named (or addressed) `what`. */
  function StaleWarning(what: string): string
  {
    StalePrefix + what + StaleSuffix
  }

  /** `rollItemMacro(uuid)`: running a macro never touches the items, the
      macros or the hotbar. */
  function Roll(h: Host, uuid: string): (h': Host)
    ensures h'.items == h.items && h'.macros == h.macros && h'.hotbar == h.hotbar
  {
    match Resolve(h.items, uuid)
    case None => h.(warnings := h.warnings + [StaleWarning(uuid)])
    case Some(item) =>
      if item.parent.None? then h.(warnings := h.warnings + [StaleWarning(item.name)])
      else h.(rolled := h.rolled + [uuid])
  }

  /** Repeated drops of the same payload onto the given slots, in order. */
  function DropAll(h: Host, data: DropData, slots: seq<int>): Host
    decreases |slots|
  {
    if |slots| == 0 then h else DropAll(Drop(h, data, slots[0]).host, data, slots[1..])
  }

  // ---------------------------------------------------------------------
  // Properties of the drop
  // ---------------------------------------------------------------------

  /** A drop of anything but an Item is ignored. */
  lemma NonItemDropIsIgnored(h: Host, data: DropData, slot: int)
    requires data.kind != "Item"
    ensures Drop(h, data, slot) == Step(h, None)
  {
  }

  /** An Item drop whose uuid is not owned by an Actor or Token adds exactly
      one warning and changes nothing else. */
  lemma UnownedDropOnlyWarns(h: Host, data: DropData, slot: int)
    requires data.kind == "Item" && !Includes(data.uuid, "Actor.") && !Includes(data.uuid, "Token.")
    ensures Drop(h, data, slot) == Step(h.(warnings := h.warnings + [OwnedOnlyWarning]), None)
  {
  }

  /** After an owned Item drop the handler returned false and the slot holds a
      macro named after the item (or "Nameless Macro") whose command targets
      the dropped uuid; no warning was issued and no other slot was written. */
  lemma OwnedDropAssignsSlot(h: Host, data: DropData, slot: int)
    requires data.kind == "Item" && IsOwnedUuid(data.uuid)
    ensures var s := Drop(h, data, slot);
      s.result == Some(false) && s.host.warnings == h.warnings &&
      slot in s.host.hotbar && s.host.hotbar[slot] < |s.host.macros| &&
      s.host.macros[s.host.hotbar[slot]].command == MacroCommand(data.uuid) &&
      s.host.macros[s.host.hotbar[slot]].name == (if data.uuid in h.items then h.items[data.uuid].name else NamelessMacro) &&
      CommandTarget(s.host.macros[s.host.hotbar[slot]].command) == Some(data.uuid) &&
      s.host.hotbar == h.hotbar[slot := s.host.hotbar[slot]]
  {
  }

  /** When a macro with the item's name and the command exists, the drop reuses
      the first such macro: the collection is unchanged and only `slot` is
      written. */
  lemma ExistingMacroIsReused(h: Host, data: DropData, slot: int, i: nat)
    requires data.kind == "Item" && IsOwnedUuid(data.uuid) && data.uuid in h.items
    requires i < |h.macros| && h.macros[i].name == h.items[data.uuid].name && h.macros[i].command == MacroCommand(data.uuid)
    ensures var s := Drop(h, data, slot);
      s.host.macros == h.macros && s.host.hotbar == h.hotbar[slot := s.host.hotbar[slot]] && s.host.hotbar[slot] <= i &&
      s.host.macros[s.host.hotbar[slot]].name == h.items[data.uuid].name &&
      s.host.macros[s.host.hotbar[slot]].command == MacroCommand(data.uuid)
  {
  }

  /** When no macro matches, exactly one macro is appended, carrying the item's
      name (or "Nameless Macro"), its image, the command and the item-macro
      flag, and the slot receives it. */
  lemma NewMacroIsAppended(h: Host, data: DropData, slot: int)
    requires data.kind == "Item" && IsOwnedUuid(data.uuid)
    requires forall j :: 0 <= j < |h.macros| ==>
      !Matches(h.macros[j], NameOf(Resolve(h.items, data.uuid)), MacroCommand(data.uuid))
    ensures var s := Drop(h, data, slot);
      s.host.macros == h.macros + [NewMacro(Resolve(h.items, data.uuid), MacroCommand(data.uuid))] &&
      s.host.hotbar == h.hotbar[slot := |h.macros|]
  {
  }

  /** A second drop of a resolvable item, onto any slot, leaves the macro
      collection as the first drop left it; only the hotbar entry differs. */
  lemma {:induction false} SecondDropReuses(h: Host, data: DropData, slot1: int, slot2: int)
    requires data.kind == "Item" && IsOwnedUuid(data.uuid) && data.uuid in h.items
    ensures var h1 := Drop(h, data, slot1).host;
      var s2 := Drop(h1, data, slot2);
      s2.host.macros == h1.macros && s2.host.warnings == h1.warnings &&
      s2.host.hotbar == h1.hotbar[slot2 := s2.host.hotbar[slot2]] && s2.result == Some(false)
  {
    var h1 := Drop(h, data, slot1).host;
    var name := NameOf(Resolve(h.items, data.uuid));
    var command := MacroCommand(data.uuid);
    var i := h1.hotbar[slot1];
    assert Matches(h1.macros[i], name, command);
    assert FindMacro(h1.macros, name, command).Some?;
  }

  /** Dropping the same resolvable item N >= 1 times onto any slots leaves
      exactly one macro with its name and command (when there was at most one
      before), appends at most that one, and issues no warning. */
  lemma {:induction false} RepeatedDropsKeepOneMacro(h: Host, data: DropData, slots: seq<int>)
    requires data.kind == "Item" && IsOwnedUuid(data.uuid) && data.uuid in h.items
    requires CountMatches(h.macros, Some(h.items[data.uuid].name), MacroCommand(data.uuid)) <= 1
    requires |slots| >= 1
    decreases |slots|
    ensures var h' := DropAll(h, data, slots);
      CountMatches(h'.macros, Some(h.items[data.uuid].name), MacroCommand(data.uuid)) == 1 &&
      h'.macros == Drop(h, data, slots[0]).host.macros &&
      h'.items == h.items && h'.warnings == h.warnings && h'.rolled == h.rolled
  {
    var name := Some(h.items[data.uuid].name);
    var command := MacroCommand(data.uuid);
    var h1 := Drop(h, data, slots[0]).host;
    assert CountMatches(h1.macros, name, command) == 1 by {
      CountMatchesZero(h.macros, name, command);
      if FindMacro(h.macros, name, command).None? {
        CountMatchesAppend(h.macros, NewMacro(Some(h.items[data.uuid]), command), name, command);
      }
    }
    if |slots| == 1 {
      assert DropAll(h, data, slots) == DropAll(h1, data, []);
    } else {
      SecondDropReuses(h, data, slots[0], slots[1]);
      RepeatedDropsKeepOneMacro(h1, data, slots[1..]);
    }
  }

  /** An owned uuid that resolves to no item never matches an existing macro,
      so every drop of it appends another "Nameless Macro". */
  lemma {:induction false} UnresolvedDropsAccumulate(h: Host, data: DropData, slots: seq<int>)
    requires data.kind == "Item" && IsOwnedUuid(data.uuid) && data.uuid !in h.items
    decreases |slots|
    ensures var h' := DropAll(h, data, slots);
      |h'.macros| == |h.macros| + |slots| && h'.macros[..|h.macros|] == h.macros &&
      forall j :: |h.macros| <= j < |h'.macros| ==> h'.macros[j] == NewMacro(None, MacroCommand(data.uuid))
  {
    if |slots| > 0 {
      var h1 := Drop(h, data, slots[0]).host;
      assert h1.macros == h.macros + [NewMacro(None, MacroCommand(data.uuid))];
      UnresolvedDropsAccumulate(h1, data, slots[1..]);
      var h' := DropAll(h1, data, slots[1..]);
      assert h'.macros[..|h.macros|] == h'.macros[..|h1.macros|][..|h.macros|];
      assert h'.macros[|h.macros|] == h'.macros[..|h1.macros|][|h.macros|];
    }
  }

  // ---------------------------------------------------------------------
  // Properties of running a macro
  // ---------------------------------------------------------------------

  /** A uuid that resolves to no item, or to an item without a parent, yields
      exactly one warning naming the item (or the uuid) and rolls nothing;
      otherwise exactly that item is rolled, once, and nothing is warned. */
  lemma {:induction false} RollWarnsOrRolls(h: Host, uuid: string)
    ensures var h' := Roll(h, uuid);
      var owned := uuid in h.items && h.items[uuid].parent.Some?;
      (owned ==> h'.rolled == h.rolled + [uuid] && h'.warnings == h.warnings) &&
      (!owned ==> h'.rolled == h.rolled && |h'.warnings| == |h.warnings| + 1 &&
                  h'.warnings[..|h.warnings|] == h.warnings &&
                  Includes(h'.warnings[|h.warnings|], if uuid in h.items then h.items[uuid].name else uuid))
  {
    if !(uuid in h.items && h.items[uuid].parent.Some?) {
      var what := if uuid in h.items then h.items[uuid].name else uuid;
      StaleWarningNames(what);
    }
  }

  /** The stale warning contains the name it was given. */
  lemma StaleWarningNames(what: string)
    ensures Includes(StaleWarning(what), what)
  {
    var w := StaleWarning(what);
    assert w[|StalePrefix|..|StalePrefix| + |what|] == what;
    assert OccursAt(w, what, |StalePrefix|);
  }

  /** A macro created (or reused) by an owned Item drop, when run, rolls the
      item that was dropped as long as it is still owned, and warns otherwise. */
  lemma DropThenRoll(h: Host, data: DropData, slot: int)
    requires data.kind == "Item" && IsOwnedUuid(data.uuid)
    ensures var h1 := Drop(h, data, slot).host;
      var target := CommandTarget(h1.macros[h1.hotbar[slot]].command);
      target == Some(data.uuid) &&
      (data.uuid in h.items && h.items[data.uuid].parent.Some? ==>
         Roll(h1, target.value).rolled == h1.rolled + [data.uuid])
  {
  }

  // ---------------------------------------------------------------------
  // The host objects, updated in place
  // ---------------------------------------------------------------------

  /** The host globals the workflow uses: the document registry, the macro
      collection, the user's hotbar, the notification area and the record of
      triggered rolls. */
  class Game {
    var items: map<string, Item>
    var macros: seq<Macro>
    var hotbar: map<int, nat>
    var warnings: seq<string>
    var rolled: seq<string>

    function State(): Host
      reads this
    {
      Host(items, macros, hotbar, warnings, rolled)
    }

    constructor (items: map<string, Item>, macros: seq<Macro>, hotbar: map<int, nat>)
      ensures State() == Host(items, macros, hotbar, [], [])
    {
      this.items := items;
      this.macros := macros;
      this.hotbar := hotbar;
      this.warnings := [];
      this.rolled := [];
    }

    /** The `hotbarDrop` handler. */
    method CreateItemMacro(data: DropData, slot: int) returns (result: Option<bool>)
      modifies this
      ensures State() == Drop(old(State()), data, slot).host
      ensures result == Drop(old(State()), data, slot).result
    {
      if data.kind != "Item" {
        return None;
      }
      if !Includes(data.uuid, "Actor.") && !Includes(data.uuid, "Token.") {
        warnings := warnings + [OwnedOnlyWarning];
        return None;
      }
      var item := Resolve(items, data.uuid);
      var command := MacroCommand(data.uuid);
      var macro := FindMacro(macros, NameOf(item), command);
      if macro.None? {
        macros := macros + [NewMacro(item, command)];
        macro := Some(|macros| - 1);
      }
      hotbar := hotbar[slot := macro.value];
      result := Some(false);
    }

    /** The entry point a stored macro command calls. */
    method RollItemMacro(uuid: string)
      modifies this
      ensures State() == Roll(old(State()), uuid)
    {
      var item := Resolve(items, uuid);
      if item.None? || item.value.parent.None? {
        var name := if item.Some? then item.value.name else uuid;
        warnings := warnings + [StaleWarning(name)];
        return;
      }
      rolled := rolled + [uuid];
    }
  }
}
