/**
 The list of connected signing devices and their aliases (liana-gui/src/hw.rs). The alias
 map is the truth; every supported device carries a copy of its own entry.
 */
module HardwareWallets {
  import opened Wrappers

  type Fingerprint = nat
  type Network = nat
  type Id = string

  /** The device of a locked entry: shared, and empty while a command is unlocking it. */
  class DeviceCell {
    var device: Option<nat>

    constructor (device: nat)
      ensures this.device == Some(device)
    {
      this.device := Some(device);
    }

    /** Whoever comes first takes the device. */
    method Take(ghost among: set<DeviceCell>) returns (taken: Option<nat>)
      requires this in among
      modifies this
      ensures Held(among) == old(Held(among)) - {this}
      ensures taken == if this in old(Held(among)) then Some(old(Held(among))[this]) else None
    {
      taken := device;
      device := None;
    }
  }

  datatype HardwareWallet =
    | Unsupported(id: Id, kind: nat)
    | Locked(id: Id, kind: nat, cell: DeviceCell)
    | Supported(id: Id, kind: nat, fingerprint: Fingerprint, alias: Option<string>)

  datatype Message =
    | Error(text: string)
    | List(still: seq<Id>, added: seq<HardwareWallet>)
    | Unlocked(id: Id, result: Result<HardwareWallet, string>)

  /** Unlocking a device on a network; the answer comes back as an `Unlocked` message. */
  datatype Command = Unlock(id: Id, device: nat, network: Network)

  datatype State = State(network: Network, list: seq<HardwareWallet>, aliases: map<Fingerprint, string>)

  datatype Event =
    | Update(message: Message)
    | SetAlias(fingerprint: Fingerprint, alias: string)
    | LoadAliases(aliases: map<Fingerprint, string>)
    | SetNetwork(network: Network)
    | ResetWatchList

  // ----- what an event does -----

  function Get(aliases: map<Fingerprint, string>, fingerprint: Fingerprint): Option<string> {
    if fingerprint in aliases then Some(aliases[fingerprint]) else None
  }

  function Relabel(aliases: map<Fingerprint, string>, hw: HardwareWallet): HardwareWallet {
    if hw.Supported? then hw.(alias := Get(aliases, hw.fingerprint)) else hw
  }

  function RelabelAll(aliases: map<Fingerprint, string>, list: seq<HardwareWallet>): seq<HardwareWallet> {
    seq(|list|, i requires 0 <= i < |list| => Relabel(aliases, list[i]))
  }

  function Rename(hw: HardwareWallet, fingerprint: Fingerprint, alias: string): HardwareWallet {
    if !hw.Supported? then hw
    else if hw.fingerprint == fingerprint then hw.(alias := Some(alias))
    else if hw.alias == Some(alias) then hw.(alias := None)
    else hw
  }

  function RenameAll(list: seq<HardwareWallet>, fingerprint: Fingerprint, alias: string): seq<HardwareWallet> {
    seq(|list|, i requires 0 <= i < |list| => Rename(list[i], fingerprint, alias))
  }

  /** The alias map without those that have a given alias. */
  function Freed(aliases: map<Fingerprint, string>, alias: string): map<Fingerprint, string> {
    map f | f in aliases && aliases[f] != alias :: aliases[f]
  }

  /** `retain` by id. */
  function Kept(list: seq<HardwareWallet>, still: seq<Id>): seq<HardwareWallet> {
    if list == [] then []
    else (if list[0].id in still then [list[0]] else []) + Kept(list[1..], still)
  }

  function Without(list: seq<HardwareWallet>, id: Id): seq<HardwareWallet> {
    if list == [] then []
    else (if list[0].id != id then [list[0]] else []) + Without(list[1..], id)
  }

  /** The first locked entry of an id, `|list|` if there is none. */
  function FirstLocked(list: seq<HardwareWallet>, id: Id): (i: nat)
    ensures i <= |list| && (i < |list| ==> list[i].Locked? && list[i].id == id)
    ensures forall k :: 0 <= k < i ==> !(list[k].Locked? && list[k].id == id)
  {
    if list == [] || (list[0].Locked? && list[0].id == id) then 0
    else 1 + FirstLocked(list[1..], id)
  }

  function UpdatedList(s: State, message: Message): seq<HardwareWallet> {
    match message
    case Error(_) => s.list
    case List(still, added) => RelabelAll(s.aliases, Kept(s.list, still) + added)
    case Unlocked(id, Err(_)) => Without(s.list, id)
    case Unlocked(_, Ok(hw)) =>
      var i := FirstLocked(s.list, hw.id);
      if i == |s.list| then s.list else s.list[i := Relabel(s.aliases, hw)]
  }

  function Apply(s: State, event: Event): State {
    match event
    case Update(message) => s.(list := UpdatedList(s, message))
    case SetAlias(f, alias) =>
      s.(list := RenameAll(s.list, f, alias), aliases := Freed(s.aliases, alias)[f := alias])
    case LoadAliases(aliases) => s.(aliases := aliases)
    case SetNetwork(network) => s.(network := network, list := [])
    case ResetWatchList => s.(list := [])
  }

  function Run(s: State, events: seq<Event>): State
    decreases |events|
  {
    if events == [] then s else Run(Apply(s, events[0]), events[1..])
  }

  // ----- which devices are unlocked -----

  function Cells(list: seq<HardwareWallet>): set<DeviceCell> {
    set i | 0 <= i < |list| && list[i].Locked? :: list[i].cell
  }

  /** The locked entries whose device a command takes: for a cell in several entries, the first. */
  function ToUnlock(list: seq<HardwareWallet>, full: set<DeviceCell>): (r: seq<HardwareWallet>)
    ensures forall i :: 0 <= i < |r| ==> r[i].Locked? && r[i].cell in full
    decreases |list|
  {
    if list == [] then []
    else if list[0].Locked? && list[0].cell in full then [list[0]] + ToUnlock(list[1..], full - {list[0].cell})
    else ToUnlock(list[1..], full)
  }

  /** The commands a list gives, given what its cells hold: each takes its device out of the cell. */
  function Commands(list: seq<HardwareWallet>, held: map<DeviceCell, nat>, network: Network): seq<Command>
    decreases |list|
  {
    if list == [] then []
    else if list[0].Locked? && list[0].cell in held then
      [Unlock(list[0].id, held[list[0].cell], network)] + Commands(list[1..], held - {list[0].cell}, network)
    else Commands(list[1..], held, network)
  }

  lemma NoCommands(held: map<DeviceCell, nat>, network: Network)
    ensures Commands([], held, network) == []
  {
  }

  /** The commands found so far and those to come, one entry further. */
  lemma CommandsStep(done: seq<Command>, list: seq<HardwareWallet>, i: nat, held: map<DeviceCell, nat>,
                     network: Network)
    requires i < |list|
    ensures list[i].Locked? ==> list[i].cell in Cells(list)
    ensures done + Commands(list[i..], held, network)
         == if list[i].Locked? && list[i].cell in held then
              done + [Unlock(list[i].id, held[list[i].cell], network)]
              + Commands(list[i + 1..], held - {list[i].cell}, network)
            else done + Commands(list[i + 1..], held, network)
    ensures list[i].Locked? && list[i].cell !in held ==> held - {list[i].cell} == held
  {
    assert list[i..][1..] == list[i + 1..];
  }

  /** Every waiting device of the list is unlocked, each by one command for an entry it is in. */
  lemma EachDeviceUnlockedOnce(list: seq<HardwareWallet>, held: map<DeviceCell, nat>, network: Network)
    ensures var entries, commands := ToUnlock(list, held.Keys), Commands(list, held, network);
            Cells(entries) == Cells(list) * held.Keys
            && (forall i, j :: 0 <= i < j < |entries| ==> entries[i].cell != entries[j].cell)
            && |commands| == |entries|
            && forall i :: 0 <= i < |entries| ==>
                 entries[i] in list && commands[i] == Unlock(entries[i].id, held[entries[i].cell], network)
  {
    EachCellOnce(list, held.Keys);
    CommandPerEntry(list, held, network);
  }

  lemma {:induction false} EachCellOnce(list: seq<HardwareWallet>, full: set<DeviceCell>)
    ensures var entries := ToUnlock(list, full);
            Cells(entries) == Cells(list) * full
            && (forall i, j :: 0 <= i < j < |entries| ==> entries[i].cell != entries[j].cell)
    decreases |list|
  {
    if list != [] {
      var hw := list[0];
      assert Cells(list) == Cells([hw]) + Cells(list[1..]) by {
        CellsOfSum([hw], list[1..]);
        assert list == [hw] + list[1..];
      }
      if hw.Locked? && hw.cell in full {
        EachCellOnce(list[1..], full - {hw.cell});
        CellsOfSum([hw], ToUnlock(list[1..], full - {hw.cell}));
        assert Cells([hw]) == {hw.cell} by { assert [hw][0] == hw; }
      } else {
        EachCellOnce(list[1..], full);
      }
    }
  }

  lemma {:induction false} CommandPerEntry(list: seq<HardwareWallet>, held: map<DeviceCell, nat>, network: Network)
    ensures var entries, commands := ToUnlock(list, held.Keys), Commands(list, held, network);
            |commands| == |entries|
            && forall i :: 0 <= i < |entries| ==>
                 entries[i] in list && commands[i] == Unlock(entries[i].id, held[entries[i].cell], network)
    decreases |list|
  {
    if list != [] {
      var hw := list[0];
      if hw.Locked? && hw.cell in held {
        var left := held - {hw.cell};
        assert left.Keys == held.Keys - {hw.cell};
        CommandPerEntry(list[1..], left, network);
      } else {
        CommandPerEntry(list[1..], held, network);
      }
    }
  }

  lemma CellsOfSum(a: seq<HardwareWallet>, b: seq<HardwareWallet>)
    ensures Cells(a + b) == Cells(a) + Cells(b)
  {
    forall c | c in Cells(a) + Cells(b) ensures c in Cells(a + b) {
      if c in Cells(a) {
        var i :| 0 <= i < |a| && a[i].Locked? && a[i].cell == c;
        assert (a + b)[i] == a[i];
      } else {
        var i :| 0 <= i < |b| && b[i].Locked? && b[i].cell == c;
        assert (a + b)[|a| + i] == b[i];
      }
    }
  }

  // ----- the list itself -----

  class Devices {
    var network: Network
    var list: seq<HardwareWallet>
    var aliases: map<Fingerprint, string>

    constructor (network: Network)
      ensures Contents() == State(network, [], map[])
    {
      this.network := network;
      list := [];
      aliases := map[];
    }

    function Contents(): State
      reads this
    {
      State(network, list, aliases)
    }

    method SetAlias(fingerprint: Fingerprint, newAlias: string)
      modifies this
      ensures Contents() == Apply(old(Contents()), Event.SetAlias(fingerprint, newAlias))
    {
      aliases := map f | f in aliases && aliases[f] != newAlias :: aliases[f];
      for i := 0 to |list|
        invariant |list| == |old(list)| && network == old(network) && aliases == Freed(old(aliases), newAlias)
        invariant forall k :: 0 <= k < i ==> list[k] == Rename(old(list)[k], fingerprint, newAlias)
        invariant forall k :: i <= k < |list| ==> list[k] == old(list)[k]
      {
        var hw := list[i];
        if hw.Supported? {
          if hw.fingerprint == fingerprint {
            list := list[i := hw.(alias := Some(newAlias))];
          } else if hw.alias == Some(newAlias) {
            list := list[i := hw.(alias := None)];
          }
        }
      }
      aliases := aliases[fingerprint := newAlias];
    }

    method ResetWatchList()
      modifies this
      ensures Contents() == Apply(old(Contents()), Event.ResetWatchList)
    {
      list := [];
    }

    method LoadAliases(loaded: map<Fingerprint, string>)
      modifies this
      ensures Contents() == Apply(old(Contents()), Event.LoadAliases(loaded))
    {
      aliases := loaded;
    }

    method SetNetwork(newNetwork: Network)
      modifies this
      ensures Contents() == Apply(old(Contents()), Event.SetNetwork(newNetwork))
    {
      network := newNetwork;
      list := [];
    }

    method Update(message: Message) returns (r: Result<seq<Command>, string>)
      modifies this`list, if message.List? then Cells(Kept(list, message.still) + message.added) else {}
      ensures Contents() == Apply(old(Contents()), Event.Update(message))
      ensures r.Err? <==> message.Error?
      ensures r.Err? ==> r.error == message.text
      ensures message.Unlocked? ==> r == Ok([])
      ensures message.List? ==>
                var held := old(Held(Cells(Kept(list, message.still) + message.added)));
                r == Ok(Commands(Kept(old(list), message.still) + message.added, held, network))
                && forall c :: c in Cells(list) ==> c.device.None?
    {
      match message
      case Error(text) =>
        return Err(text);
      case List(still, added) =>
        var commands := HandleList(still, added);
        return Ok(commands);
      case Unlocked(id, Err(_)) =>
        list := Without(list, id);
        return Ok([]);
      case Unlocked(_, Ok(hw)) =>
        var i := FirstLocked(list, hw.id);
        if i < |list| {
          list := list[i := hw];
          if hw.Supported? {
            list := list[i := hw.(alias := Get(aliases, hw.fingerprint))];
          }
        }
        return Ok([]);
    }

    method HandleList(still: seq<Id>, added: seq<HardwareWallet>) returns (commands: seq<Command>)
      modifies this`list, Cells(Kept(list, still) + added)
      ensures Contents() == Apply(old(Contents()), Event.Update(List(still, added)))
      ensures var held := old(Held(Cells(Kept(list, still) + added)));
              commands == Commands(Kept(old(list), still) + added, held, network)
      ensures forall c :: c in Cells(list) ==> c.device.None?
    {
      hide Commands, Held, Kept, Cells, RelabelAll;
      list := Kept(list, still) + added;
      commands := RefreshEntries();
    }

    /** Every supported entry shows its alias, and every locked one gives up its device. */
    method RefreshEntries() returns (commands: seq<Command>)
      modifies this`list, Cells(list)
      ensures list == RelabelAll(aliases, old(list))
      ensures commands == Commands(old(list), old(Held(Cells(list))), network)
      ensures forall c :: c in Cells(list) ==> c.device.None?
    {
      commands := [];
      ghost var all, held := list, Held(Cells(list));
      assert all[0..] == all;
      RefreshStarts(aliases, all, held);
      hide Commands, Held, RelabelledTo, TakenTo, Relabel, RelabelAll, Cells;
      for i := 0 to |list|
        invariant RelabelledTo(aliases, all, list, i) && |list| == |all|
        invariant TakenTo(all, Held(Cells(all)), i)
        invariant commands + Commands(all[i..], Held(Cells(all)), network) == Commands(all, held, network)
      {
        RefreshNext(aliases, all, list, Held(Cells(all)), i);
        CommandsStep(commands, all, i, Held(Cells(all)), network);
        var hw := list[i];
        if hw.Supported? {
          list := list[i := hw.(alias := Get(aliases, hw.fingerprint))];
        } else if hw.Locked? {
          var device := hw.cell.Take(Cells(all));
          if device.Some? {
            commands := commands + [Unlock(hw.id, device.value, network)];
          }
        }
      }
      RefreshEnds(aliases, all, list, Held(Cells(all)));
      assert all[|all|..] == [];
      NoCommands(Held(Cells(all)), network);
      NothingHeld(Cells(all));
    }
  }

  /** The entries before `i` were relabelled. */
  ghost predicate RelabelledTo(aliases: map<Fingerprint, string>, all: seq<HardwareWallet>, list: seq<HardwareWallet>,
                               i: nat)
  {
    |list| == |all|
    && (forall k :: 0 <= k < i && k < |all| ==> list[k] == Relabel(aliases, all[k]))
    && forall k :: i <= k < |all| ==> list[k] == all[k]
  }

  /** No entry before `i` has a device waiting. */
  ghost predicate TakenTo(all: seq<HardwareWallet>, waiting: map<DeviceCell, nat>, i: nat) {
    forall k :: 0 <= k < i && k < |all| && all[k].Locked? ==> all[k].cell !in waiting
  }

  lemma RefreshStarts(aliases: map<Fingerprint, string>, all: seq<HardwareWallet>, waiting: map<DeviceCell, nat>)
    ensures RelabelledTo(aliases, all, all, 0) && TakenTo(all, waiting, 0)
  {
  }

  lemma RefreshNext(aliases: map<Fingerprint, string>, all: seq<HardwareWallet>, list: seq<HardwareWallet>,
                    waiting: map<DeviceCell, nat>, i: nat)
    requires i < |all| && RelabelledTo(aliases, all, list, i) && TakenTo(all, waiting, i)
    ensures list[i] == all[i]
    ensures RelabelledTo(aliases, all,
                         if list[i].Supported? then list[i := list[i].(alias := Get(aliases, list[i].fingerprint))]
                         else list,
                         i + 1)
    ensures TakenTo(all, if all[i].Locked? then waiting - {all[i].cell} else waiting, i + 1)
  {
  }

  lemma RefreshEnds(aliases: map<Fingerprint, string>, all: seq<HardwareWallet>, list: seq<HardwareWallet>,
                    waiting: map<DeviceCell, nat>)
    requires RelabelledTo(aliases, all, list, |all|) && TakenTo(all, waiting, |all|)
    ensures list == RelabelAll(aliases, all) && Cells(list) == Cells(all)
    ensures forall c :: c in Cells(all) ==> c !in waiting
  {
    forall c ensures c in Cells(list) <==> c in Cells(all) {
      if c in Cells(list) {
        var k :| 0 <= k < |list| && list[k].Locked? && list[k].cell == c;
        assert all[k].Locked? && all[k].cell == c;
      }
      if c in Cells(all) {
        var k :| 0 <= k < |all| && all[k].Locked? && all[k].cell == c;
        assert list[k].Locked? && list[k].cell == c;
      }
    }
  }

  /** What cells hold. */
  ghost function Held(cells: set<DeviceCell>): map<DeviceCell, nat>
    reads cells
  {
    map c | c in cells && c.device.Some? :: c.device.value
  }

  lemma NothingHeld(cells: set<DeviceCell>)
    requires forall c :: c in cells ==> c !in Held(cells)
    ensures forall c :: c in cells ==> c.device.None?
  {
  }

  // ----- the aliases agree -----

  /** Every supported device shows what the alias map says of its fingerprint. */
  predicate Agrees(s: State) {
    forall i :: 0 <= i < |s.list| && s.list[i].Supported? ==> s.list[i].alias == Get(s.aliases, s.list[i].fingerprint)
  }

  /** No alias is given to two fingerprints. */
  predicate Distinct(s: State) {
    forall f, g :: f in s.aliases && g in s.aliases && f != g ==> s.aliases[f] != s.aliases[g]
  }

  /** A device list makes every copy agree, whatever aliases the entries came with. */
  lemma ListMakesAgree(s: State, still: seq<Id>, added: seq<HardwareWallet>)
    ensures Agrees(Apply(s, Update(List(still, added))))
  {
  }

  lemma {:induction false} WithoutKeepsAgreement(s: State, id: Id)
    requires Agrees(s)
    ensures Agrees(s.(list := Without(s.list, id)))
    decreases |s.list|
  {
    if s.list != [] {
      WithoutKeepsAgreement(s.(list := s.list[1..]), id);
      var rest := s.(list := Without(s.list[1..], id));
      var after := s.(list := Without(s.list, id));
      assert forall i :: 0 <= i < |rest.list| ==> after.list[i + |after.list| - |rest.list|] == rest.list[i];
    }
  }

  /** Agreement is kept by everything but loading other aliases. */
  lemma StepKeepsAgreement(s: State, event: Event)
    requires Agrees(s) && !event.LoadAliases?
    ensures Agrees(Apply(s, event))
  {
    match event
    case Update(Unlocked(id, Err(_))) =>
      WithoutKeepsAgreement(s, id);
    case _ =>
  }

  lemma {:induction false} RunKeepsAgreement(s: State, events: seq<Event>)
    requires Agrees(s) && forall e :: e in events ==> !e.LoadAliases?
    ensures Agrees(Run(s, events))
    decreases |events|
  {
    if events != [] {
      StepKeepsAgreement(s, events[0]);
      RunKeepsAgreement(Apply(s, events[0]), events[1..]);
    }
  }

  /** Loading aliases keeps agreement exactly when no listed device has another alias in the new map. */
  lemma LoadKeepsAgreementIff(s: State, aliases: map<Fingerprint, string>)
    requires Agrees(s)
    ensures Agrees(Apply(s, LoadAliases(aliases)))
       <==> forall i :: 0 <= i < |s.list| && s.list[i].Supported? ==>
              Get(aliases, s.list[i].fingerprint) == Get(s.aliases, s.list[i].fingerprint)
  {
    var after := Apply(s, LoadAliases(aliases));
    if Agrees(after) {
      forall i | 0 <= i < |s.list| && s.list[i].Supported?
        ensures Get(aliases, s.list[i].fingerprint) == Get(s.aliases, s.list[i].fingerprint)
      {
        assert after.list[i] == s.list[i];
      }
    }
  }

  lemma LoadMayBreakAgreement()
    ensures var s := State(0, [Supported("usb", 0, 7, None)], map[]);
            Agrees(s) && !Agrees(Apply(s, LoadAliases(map[7 := "Alice"])))
  {
    var s := State(0, [Supported("usb", 0, 7, None)], map[]);
    assert Apply(s, LoadAliases(map[7 := "Alice"])).list[0].alias == None;
  }

  // ----- an alias names one device -----

  lemma StepKeepsDistinct(s: State, event: Event)
    requires Distinct(s) && (event.LoadAliases? ==> Distinct(s.(aliases := event.aliases)))
    ensures Distinct(Apply(s, event))
  {
  }

  /** After `set_alias` the alias is that of the fingerprint only, even in a map that was not injective. */
  lemma SetAliasIsExclusive(s: State, fingerprint: Fingerprint, alias: string)
    ensures var after := Apply(s, SetAlias(fingerprint, alias));
            (forall f :: f in after.aliases && after.aliases[f] == alias <==> f == fingerprint)
            && (forall f :: f != fingerprint && Get(s.aliases, f) != Some(alias) ==>
                  Get(after.aliases, f) == Get(s.aliases, f))
            && |after.list| == |s.list|
            && forall i :: 0 <= i < |s.list| && s.list[i].Supported? ==>
                 after.list[i].Supported?
                 && (after.list[i].alias == Some(alias) <==> s.list[i].fingerprint == fingerprint)
  {
  }

  /**
   Once a device list has arrived, and as long as aliases are only set one at a time, two
   listed devices with one alias have one fingerprint, and every alias shown is the map's.
   */
  lemma AliasNamesOneDevice(s: State, still: seq<Id>, added: seq<HardwareWallet>, events: seq<Event>)
    requires Distinct(s) && forall e :: e in events ==> !e.LoadAliases?
    ensures var after := Run(Apply(s, Update(List(still, added))), events);
            Agrees(after)
            && forall i, j :: 0 <= i < |after.list| && 0 <= j < |after.list|
                              && after.list[i].Supported? && after.list[j].Supported?
                              && after.list[i].alias.Some? && after.list[i].alias == after.list[j].alias ==>
                 after.list[i].fingerprint == after.list[j].fingerprint
  {
    var listed := Apply(s, Update(List(still, added)));
    ListMakesAgree(s, still, added);
    RunKeepsAgreement(listed, events);
    RunKeepsDistinct(listed, events);
  }

  lemma {:induction false} RunKeepsDistinct(s: State, events: seq<Event>)
    requires Distinct(s) && forall e :: e in events ==> !e.LoadAliases?
    ensures Distinct(Run(s, events))
    decreases |events|
  {
    if events != [] {
      StepKeepsDistinct(s, events[0]);
      RunKeepsDistinct(Apply(s, events[0]), events[1..]);
    }
  }

  // ----- late answers, ids -----

  predicate HasLocked(list: seq<HardwareWallet>, id: Id) {
    exists hw :: hw in list && hw.Locked? && hw.id == id
  }

  /**
   An answer to an unlock command that comes after the entry is gone, or was unlocked already,
   changes nothing; any other replaces the first locked entry of its id and nothing else.
   */
  lemma LateUnlockChangesNothing(s: State, id: Id, hw: HardwareWallet)
    ensures var after := Apply(s, Update(Unlocked(id, Ok(hw))));
            if HasLocked(s.list, hw.id) then
              exists i :: 0 <= i < |s.list| && s.list[i].Locked? && s.list[i].id == hw.id
                          && after == s.(list := s.list[..i] + [Relabel(s.aliases, hw)] + s.list[i + 1..])
                          && !HasLocked(s.list[..i], hw.id)
            else after == s
  {
    var list, i := s.list, FirstLocked(s.list, hw.id);
    hide FirstLocked, Relabel;
    if i < |list| {
      assert list[i] in list;
      assert list[i := Relabel(s.aliases, hw)] == list[..i] + [Relabel(s.aliases, hw)] + list[i + 1..];
      NoneLocked(list[..i], hw.id);
    } else {
      NoneLocked(list, hw.id);
    }
  }

  lemma NoneLocked(list: seq<HardwareWallet>, id: Id)
    requires forall k :: 0 <= k < |list| ==> !(list[k].Locked? && list[k].id == id)
    ensures !HasLocked(list, id)
  {
  }

  predicate UniqueIds(list: seq<HardwareWallet>) {
    forall i, j :: 0 <= i < j < |list| ==> list[i].id != list[j].id
  }

  lemma PrependUnique(hw: HardwareWallet, list: seq<HardwareWallet>)
    requires UniqueIds(list) && Avoids(list, hw.id)
    ensures UniqueIds([hw] + list)
  {
  }

  predicate Avoids(list: seq<HardwareWallet>, id: Id) {
    forall i :: 0 <= i < |list| ==> list[i].id != id
  }

  /** Filtering adds no id, and drops the ids it is to drop. */
  lemma {:induction false} FilteredAvoid(list: seq<HardwareWallet>, still: seq<Id>, gone: Id, id: Id)
    ensures Avoids(list, id) || id !in still ==> Avoids(Kept(list, still), id)
    ensures Avoids(list, id) || id == gone ==> Avoids(Without(list, gone), id)
  {
    if list != [] {
      FilteredAvoid(list[1..], still, gone, id);
    }
  }

  lemma {:induction false} FilteredIds(list: seq<HardwareWallet>, still: seq<Id>, gone: Id)
    requires UniqueIds(list)
    ensures UniqueIds(Kept(list, still)) && UniqueIds(Without(list, gone))
  {
    if list != [] {
      assert UniqueIds(list[1..]) && Avoids(list[1..], list[0].id);
      FilteredIds(list[1..], still, gone);
      FilteredAvoid(list[1..], still, gone, list[0].id);
      PrependUnique(list[0], Kept(list[1..], still));
      PrependUnique(list[0], Without(list[1..], gone));
      hide UniqueIds, Avoids;
      var kept, without := Kept(list[1..], still), Without(list[1..], gone);
      assert Kept(list, still) == if list[0].id in still then [list[0]] + kept else kept;
      assert Without(list, gone) == if list[0].id != gone then [list[0]] + without else without;
    }
  }

  /** Ids stay unique as long as a device list adds only ids that it does not also keep. */
  lemma IdsStayUnique(s: State, event: Event)
    requires UniqueIds(s.list)
    requires event.Update? && event.message.List? ==>
               UniqueIds(event.message.added)
               && forall i :: 0 <= i < |event.message.added| ==>
                    event.message.added[i].id !in event.message.still
    ensures UniqueIds(Apply(s, event).list)
  {
    match event
    case Update(List(still, added)) =>
      FilteredIds(s.list, still, "");
      forall i | 0 <= i < |added| ensures Avoids(Kept(s.list, still), added[i].id) {
        FilteredAvoid(s.list, still, "", added[i].id);
      }
      assert UniqueIds(Kept(s.list, still) + added);
    case Update(Unlocked(id, Err(_))) =>
      FilteredIds(s.list, [], id);
    case _ =>
  }
}
