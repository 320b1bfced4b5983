/** A map instance: one running copy of a map with its portals, monsters,
    NPCs and dropped items. It puts dropped items on a free cell next to the
    dropping character, lists what a player entering the map must be sent,
    and runs a sleep state machine that stops its monsters and NPCs some
    time after the last player left. Times are milliseconds on the server
    clock, passed in as `now`. */
module MapInstanceAccess {
  import opened Common
  import opened Items
  import opened Characters

  // =====================================================================
  // Entities on the map
  // =====================================================================

  datatype Portal = Portal(PortalId: int, SourceX: short, SourceY: short, DestinationMapId: int)

  /** A monster; `Living` says whether its life loop runs (`Life != null`). */
  datatype MapMonster = MapMonster(MapMonsterId: int, VNum: int, PositionX: short, PositionY: short, Living: bool)

  /** An NPC; `HasShop` says whether it runs a shop (`Shop != null`). */
  datatype MapNpc = MapNpc(MapNpcId: int, VNum: int, PositionX: short, PositionY: short, HasShop: bool, Living: bool)

  /** An item stack lying on the map. */
  datatype MapItem = MapItem(VisualId: int, ItemInstance: ItemInstance, PositionX: short, PositionY: short)

  /** The packets `GetMapItems` lists: a portal's `gp`, the `in` of a
      monster, NPC or item, and an NPC's `shop`. */
  datatype MapPacket =
    | Gp(Portal: Portal)
    | MonsterIn(Monster: MapMonster)
    | NpcIn(Npc: MapNpc)
    | Shop(ShopNpc: MapNpc)
    | ItemIn(Item: MapItem)

  function SetMonstersLiving(m: map<int, MapMonster>, living: bool): (r: map<int, MapMonster>)
    ensures r.Keys == m.Keys
    ensures forall k :: k in r ==> r[k] == m[k].(Living := living)
  {
    map k | k in m :: m[k].(Living := living)
  }

  function SetNpcsLiving(m: map<int, MapNpc>, living: bool): (r: map<int, MapNpc>)
    ensures r.Keys == m.Keys
    ensures forall k :: k in r ==> r[k] == m[k].(Living := living)
  {
    map k | k in m :: m[k].(Living := living)
  }

  // =====================================================================
  // The sleep state machine
  // =====================================================================

  /** How long after the last player left an instance may fall asleep. */
  const GraceMs: int := 30_000

  /** How far in the past a new instance puts its `LastUnregister`. */
  const InitialUnregisterAgeMs: int := 60_000

  /** The two flags `_isSleeping` and `_isSleepingRequest`. */
  datatype SleepState = SleepState(Sleeping: bool, Request: bool)

  /** A read of `IsSleeping` puts the instance to sleep: a sleep was
      requested, the instance is awake, and more than the grace period has
      passed since the last player left. */
  predicate FallsAsleep(s: SleepState, lastUnregister: int, now: int)
  {
    s.Request && !s.Sleeping && now > lastUnregister + GraceMs
  }

  /** The `IsSleeping` getter: the flags afterwards and the value returned. */
  function ReadSleeping(s: SleepState, lastUnregister: int, now: int): (r: (SleepState, bool))
    ensures r.1 == r.0.Sleeping
  {
    if !s.Request || s.Sleeping || lastUnregister + GraceMs >= now then (s, s.Sleeping)
    else (SleepState(true, false), true)
  }

  /** The `IsSleeping` setter. */
  function WriteSleeping(s: SleepState, value: bool): (r: SleepState)
    ensures value ==> r.Request && r.Sleeping == s.Sleeping
    ensures !value ==> !r.Request && !r.Sleeping
  {
    if value then s.(Request := true) else SleepState(false, false)
  }

  /** A read reports sleeping exactly when the instance already slept or a
      pending request has outlived the grace period; only in that second
      case do the flags change, to sleeping with no request. */
  lemma ReadSleepingCases(s: SleepState, lastUnregister: int, now: int)
    ensures ReadSleeping(s, lastUnregister, now).1 <==> s.Sleeping || (s.Request && now > lastUnregister + GraceMs)
    ensures ReadSleeping(s, lastUnregister, now).0 == (if FallsAsleep(s, lastUnregister, now) then SleepState(true, false) else s)
  {
  }

  /** At exactly the end of the grace period an awake instance stays awake. */
  lemma GraceBoundaryStaysAwake(s: SleepState, lastUnregister: int)
    requires !s.Sleeping
    ensures ReadSleeping(s, lastUnregister, lastUnregister + GraceMs) == (s, false)
  {
  }

  /** Reading twice at the same time is the same as reading once. */
  lemma ReadSleepingIdempotent(s: SleepState, lastUnregister: int, now: int)
    ensures var (s1, b1) := ReadSleeping(s, lastUnregister, now);
      ReadSleeping(s1, lastUnregister, now) == (s1, b1)
  {
  }

  /** Sleep is sticky under reads: once asleep, every read at any time says
      so, and only writing `false` wakes the instance. */
  lemma AsleepStaysAsleep(s: SleepState, lastUnregister: int, now: int)
    requires s.Sleeping
    ensures ReadSleeping(s, lastUnregister, now) == (s, true)
    ensures WriteSleeping(s, true).Sleeping
    ensures !WriteSleeping(s, false).Sleeping
  {
  }

  /** Writing `true` only files a request; writing `false` wakes the
      instance and drops any request, so that no later read at any time
      reports sleeping until a new request is filed. */
  lemma WriteSleepingEffects(s: SleepState, lastUnregister: int, now: int)
    ensures WriteSleeping(s, true) == s.(Request := true)
    ensures WriteSleeping(s, false) == SleepState(false, false)
    ensures ReadSleeping(WriteSleeping(s, false), lastUnregister, now) == (SleepState(false, false), false)
  {
  }

  /** A new instance (asleep, no request) reports sleeping whatever the
      time; after a wake-up and a sleep request it stays awake through the
      grace period and falls asleep right after it. */
  lemma WakeRequestSleep(lastUnregister: int, now: int)
    ensures ReadSleeping(SleepState(true, false), lastUnregister, now) == (SleepState(true, false), true)
    ensures var requested := WriteSleeping(WriteSleeping(SleepState(true, false), false), true);
      && requested == SleepState(false, true)
      && (now <= lastUnregister + GraceMs ==> ReadSleeping(requested, lastUnregister, now) == (requested, false))
      && (now > lastUnregister + GraceMs ==> ReadSleeping(requested, lastUnregister, now) == (SleepState(true, false), true))
  {
  }

  // =====================================================================
  // Dropping items
  // =====================================================================

  /** A cell offset around the dropping character. */
  datatype MapCell = MapCell(X: short, Y: short)

  /** The `i`-th offset the nested loops produce: x outer, y inner. */
  function Cell(i: int): MapCell
    requires 0 <= i < 25
  {
    MapCell(i / 5 - 2, i % 5 - 2)
  }

  /** The 25 `possibilities`, in the order they are built. */
  function Neighbourhood(): seq<MapCell>
  {
    seq(25, i requires 0 <= i < 25 => Cell(i))
  }

  /** The neighbourhood is exactly the 5x5 square of offsets in [-2, 2]
      around the character, each offset once. */
  lemma NeighbourhoodIsSquare()
    ensures |Neighbourhood()| == 25
    ensures forall c :: c in Neighbourhood() <==> -2 <= c.X <= 2 && -2 <= c.Y <= 2
    ensures forall i, j :: 0 <= i < j < 25 ==> Neighbourhood()[i] != Neighbourhood()[j]
  {
    forall c: MapCell | -2 <= c.X <= 2 && -2 <= c.Y <= 2 ensures c in Neighbourhood() {
      var i := 5 * (c.X + 2) + (c.Y + 2);
      assert Neighbourhood()[i] == c;
    }
  }

  /** `OrderBy(random)` over the 25 possibilities: a permutation of their
      indices. */
  predicate IsShuffle(shuffle: seq<int>)
  {
    && |shuffle| == 25
    && (forall i :: 0 <= i < 25 ==> 0 <= shuffle[i] < 25)
    && (forall i, j :: 0 <= i < j < 25 ==> shuffle[i] != shuffle[j])
  }

  function Shuffled(cells: seq<MapCell>, shuffle: seq<int>): (r: seq<MapCell>)
    requires |cells| == 25 && IsShuffle(shuffle)
    ensures |r| == 25
    ensures forall i :: 0 <= i < 25 ==> r[i] == cells[shuffle[i]]
  {
    seq(25, i requires 0 <= i < 25 => cells[shuffle[i]])
  }

  /** The map coordinates of an offset, through the `(short)` cast. */
  function TargetX(px: short, c: MapCell): short { ToShort(px + c.X) }
  function TargetY(py: short, c: MapCell): short { ToShort(py + c.Y) }

  /** `Map.IsBlockedZone(firstX, firstY, mapX, mapY)` for the cell `c`. */
  predicate CellBlocked(isBlocked: (int, int, int, int) -> bool, px: short, py: short, c: MapCell)
  {
    isBlocked(px, py, TargetX(px, c), TargetY(py, c))
  }

  /** The index of the first cell of `cells` that is not blocked. */
  function FirstFree(cells: seq<MapCell>, isBlocked: (int, int, int, int) -> bool, px: short, py: short): (r: Option<nat>)
    ensures r.None? <==> forall j :: 0 <= j < |cells| ==> CellBlocked(isBlocked, px, py, cells[j])
    ensures r.Some? ==>
      && r.value < |cells|
      && !CellBlocked(isBlocked, px, py, cells[r.value])
      && forall j :: 0 <= j < r.value ==> CellBlocked(isBlocked, px, py, cells[j])
  {
    if cells == [] then None
    else if !CellBlocked(isBlocked, px, py, cells[0]) then Some(0)
    else
      var rest := FirstFree(cells[1..], isBlocked, px, py);
      assert forall j :: 1 <= j < |cells| ==> cells[j] == cells[1..][j - 1];
      if rest.None? then None else Some(rest.value + 1)
  }

  /** Away from the edges of the `short` range the accepted cell lies
      within Chebyshev distance 2 of the dropping character. */
  lemma {:induction false} DropIsNearby(shuffle: seq<int>, isBlocked: (int, int, int, int) -> bool, px: short, py: short)
    requires IsShuffle(shuffle)
    requires -0x8000 + 2 <= px < 0x8000 - 2 && -0x8000 + 2 <= py < 0x8000 - 2
    ensures var ordered := Shuffled(Neighbourhood(), shuffle);
      var found := FirstFree(ordered, isBlocked, px, py);
      found.Some? ==>
        && -2 <= TargetX(px, ordered[found.value]) - px <= 2
        && -2 <= TargetY(py, ordered[found.value]) - py <= 2
  {
    var ordered := Shuffled(Neighbourhood(), shuffle);
    var found := FirstFree(ordered, isBlocked, px, py);
    if found.Some? {
      NeighbourhoodIsSquare();
      assert ordered[found.value] in Neighbourhood();
    }
  }

  /** What a successful drop does to the stack it takes from. */
  function RemainingInventory(inventory: map<Guid, ItemInstance>, id: Guid, remaining: int): (r: map<Guid, ItemInstance>)
    ensures remaining == 0 ==> r == inventory - {id}
    ensures remaining != 0 ==> r == inventory
  {
    if remaining == 0 then inventory - {id} else inventory
  }

  // =====================================================================
  // The map instance
  // =====================================================================

  class MapInstance {
    const MapInstanceId: Guid
    const ShopAllowed: bool
    var XpRate: int
    var DropRate: int
    var isSleeping: bool
    var isSleepingRequest: bool
    /** When the last player left, in milliseconds. */
    var LastUnregister: int
    var Portals: seq<Portal>
    var Monsters: map<int, MapMonster>
    var Npcs: map<int, MapNpc>
    var MapItems: map<int, MapItem>

    function Sleep(): SleepState
      reads this
    {
      SleepState(isSleeping, isSleepingRequest)
    }

    /** A sleeping instance runs no monster or NPC life. */
    ghost predicate Dormant()
      reads this
    {
      isSleeping ==>
        && (forall k :: k in Monsters ==> !Monsters[k].Living)
        && (forall k :: k in Npcs ==> !Npcs[k].Living)
    }

    /** A new instance starts asleep, with no pending request, rates 1, no
        entities, and its last player gone a minute ago. */
    constructor (mapInstanceId: Guid, shopAllowed: bool, now: int)
      ensures Dormant()
      ensures MapInstanceId == mapInstanceId && ShopAllowed == shopAllowed
      ensures XpRate == 1 && DropRate == 1
      ensures Sleep() == SleepState(true, false)
      ensures LastUnregister == now - InitialUnregisterAgeMs
      ensures Portals == [] && Monsters == map[] && Npcs == map[] && MapItems == map[]
    {
      MapInstanceId := mapInstanceId;
      ShopAllowed := shopAllowed;
      XpRate := 1;
      DropRate := 1;
      Portals := [];
      Monsters := map[];
      Npcs := map[];
      MapItems := map[];
      isSleeping := true;
      isSleepingRequest := false;
      LastUnregister := now - InitialUnregisterAgeMs;
    }

    /** `LoadMonsters`: installs the monsters the builder created for this
        instance; a freshly built monster has no life yet. */
    method LoadMonsters(monsters: map<int, MapMonster>)
      requires Dormant()
      requires forall k :: k in monsters ==> !monsters[k].Living
      modifies this`Monsters
      ensures Dormant()
      ensures Monsters == monsters
    {
      Monsters := monsters;
    }

    /** `LoadNpcs`, likewise for NPCs. */
    method LoadNpcs(npcs: map<int, MapNpc>)
      requires Dormant()
      requires forall k :: k in npcs ==> !npcs[k].Living
      modifies this`Npcs
      ensures Dormant()
      ensures Npcs == npcs
    {
      Npcs := npcs;
    }

    /** The `IsSleeping` getter at time `now`. When the instance falls
        asleep it stops the life of every monster and NPC. */
    method IsSleeping(now: int) returns (sleeping: bool)
      requires Dormant()
      modifies this`isSleeping, this`isSleepingRequest, this`Monsters, this`Npcs
      ensures Dormant()
      ensures (Sleep(), sleeping) == ReadSleeping(old(Sleep()), LastUnregister, now)
      ensures FallsAsleep(old(Sleep()), LastUnregister, now) ==>
        Monsters == SetMonstersLiving(old(Monsters), false) && Npcs == SetNpcsLiving(old(Npcs), false)
      ensures !FallsAsleep(old(Sleep()), LastUnregister, now) ==>
        Monsters == old(Monsters) && Npcs == old(Npcs)
    {
      if !isSleepingRequest || isSleeping || LastUnregister + GraceMs >= now {
        return isSleeping;
      }
      isSleeping := true;
      isSleepingRequest := false;
      Monsters := SetMonstersLiving(Monsters, false);
      Npcs := SetNpcsLiving(Npcs, false);
      return true;
    }

    /** The `IsSleeping` setter. */
    method SetIsSleeping(value: bool)
      requires Dormant()
      modifies this`isSleeping, this`isSleepingRequest
      ensures Dormant()
      ensures Sleep() == WriteSleeping(old(Sleep()), value)
    {
      if value {
        isSleepingRequest := true;
      } else {
        isSleeping := false;
        isSleepingRequest := false;
      }
    }

    /** One tick of the life loop `StartLife` subscribes: unless the
        instance is (or now falls) asleep, every monster and NPC without a
        running life gets one, so all of them live afterwards. */
    method LifeTick(now: int)
      requires Dormant()
      modifies this`isSleeping, this`isSleepingRequest, this`Monsters, this`Npcs
      ensures Dormant()
      ensures Sleep() == ReadSleeping(old(Sleep()), LastUnregister, now).0
      ensures Sleep().Sleeping ==>
        && Monsters == (if FallsAsleep(old(Sleep()), LastUnregister, now) then SetMonstersLiving(old(Monsters), false) else old(Monsters))
        && Npcs == (if FallsAsleep(old(Sleep()), LastUnregister, now) then SetNpcsLiving(old(Npcs), false) else old(Npcs))
      ensures !Sleep().Sleeping ==>
        Monsters == SetMonstersLiving(old(Monsters), true) && Npcs == SetNpcsLiving(old(Npcs), true)
    {
      var sleeping := IsSleeping(now);
      if sleeping {
        return;
      }
      Monsters := SetMonstersLiving(Monsters, true);
      Npcs := SetNpcsLiving(Npcs, true);
    }

    /** The 25 offsets, built by the nested loops of `PutItem`. */
    static method Possibilities() returns (cells: seq<MapCell>)
      ensures cells == Neighbourhood()
    {
      cells := [];
      var x := -2;
      while x < 3
        invariant -2 <= x <= 3
        invariant |cells| == 5 * (x + 2)
        invariant forall i :: 0 <= i < |cells| ==> cells[i] == Cell(i)
      {
        var y := -2;
        while y < 3
          invariant -2 <= y <= 3
          invariant |cells| == 5 * (x + 2) + (y + 2)
          invariant forall i :: 0 <= i < |cells| ==> cells[i] == Cell(i)
        {
          assert Cell(|cells|) == MapCell(x, y);
          cells := cells + [MapCell(x, y)];
          y := y + 1;
        }
        x := x + 1;
      }
    }

    /** The search loop of `PutItem`: the coordinates of the first cell of
        `ordered` that `isBlocked` lets through, if any. */
    static method FindFreeCell(ordered: seq<MapCell>, isBlocked: (int, int, int, int) -> bool, px: short, py: short)
      returns (niceSpot: bool, mapX: short, mapY: short)
      ensures niceSpot <==> FirstFree(ordered, isBlocked, px, py).Some?
      ensures niceSpot ==>
        var k := FirstFree(ordered, isBlocked, px, py).value;
        mapX == TargetX(px, ordered[k]) && mapY == TargetY(py, ordered[k])
    {
      mapX, mapY, niceSpot := 0, 0, false;
      var i := 0;
      while i < |ordered| && !niceSpot
        invariant 0 <= i <= |ordered|
        invariant !niceSpot ==> forall j :: 0 <= j < i ==> CellBlocked(isBlocked, px, py, ordered[j])
        invariant niceSpot ==> 0 < i && FirstFree(ordered, isBlocked, px, py) == Some(i - 1)
        invariant niceSpot ==> mapX == TargetX(px, ordered[i - 1]) && mapY == TargetY(py, ordered[i - 1])
      {
        mapX := TargetX(px, ordered[i]);
        mapY := TargetY(py, ordered[i]);
        if !isBlocked(px, py, mapX, mapY) {
          niceSpot := true;
        }
        i := i + 1;
      }
    }

    /** `PutItem`: `character` drops `amount` of its stack `inv`.
        `shuffle` is the random order of the 25 offsets, `isBlocked` is
        `Map.IsBlockedZone`, `newItemId` is the `Guid.NewGuid()` of the new
        stack and `droppedVisualId` the id the item builder gives the
        dropped item. Fails, changing nothing, when every cell is blocked or
        the amount is not in 1..inv.Amount; otherwise splits the stack,
        lays the new one on the first free cell and drops the old one from
        the inventory when it is used up. `MapItems` gains exactly one entry
        when the builder's id is not yet on the map; an id already there is
        overwritten, as the indexer store does. */
    method PutItem(amount: short, inv: ItemInstance, character: Character, shuffle: seq<int>,
                   isBlocked: (int, int, int, int) -> bool, newItemId: Guid, droppedVisualId: int)
      returns (dropped: Option<MapItem>)
      requires IsShuffle(shuffle)
      modifies this`MapItems, inv`Amount, character`Inventory
      ensures var ordered := Shuffled(Neighbourhood(), shuffle);
        var found := FirstFree(ordered, isBlocked, character.PositionX, character.PositionY);
        && (dropped.None? <==> found.None? || amount <= 0 || amount > old(inv.Amount))
        && (dropped.None? ==>
              MapItems == old(MapItems) && inv.Amount == old(inv.Amount) && character.Inventory == old(character.Inventory))
        && (dropped.Some? ==>
              var item := dropped.value;
              && item.VisualId == droppedVisualId
              && item.PositionX == TargetX(character.PositionX, ordered[found.value])
              && item.PositionY == TargetY(character.PositionY, ordered[found.value])
              && fresh(item.ItemInstance)
              && item.ItemInstance.Id == newItemId
              && item.ItemInstance.Amount == amount
              && item.ItemInstance.ItemVNum == inv.ItemVNum
              && MapItems == old(MapItems)[droppedVisualId := item]
              && MapItems.Keys == old(MapItems).Keys + {droppedVisualId}
              && (droppedVisualId !in old(MapItems) ==> |MapItems| == |old(MapItems)| + 1)
              && (droppedVisualId in old(MapItems) ==> |MapItems| == |old(MapItems)|)
              && inv.Amount == old(inv.Amount) - amount
              && character.Inventory == RemainingInventory(old(character.Inventory), inv.Id, inv.Amount))
    {
      var possibilities := Possibilities();
      var ordered := Shuffled(possibilities, shuffle);
      var niceSpot, mapX, mapY := FindFreeCell(ordered, isBlocked, character.PositionX, character.PositionY);
      if !niceSpot {
        return None;
      }
      if amount <= 0 || amount > inv.Amount {
        return None;
      }
      var newItemInstance := inv.Clone();
      newItemInstance.Id := newItemId;
      newItemInstance.Amount := amount;
      var item := MapItem(droppedVisualId, newItemInstance, mapX, mapY);
      MapItems := MapItems[item.VisualId := item];
      inv.Amount := inv.Amount - amount;
      if inv.Amount == 0 {
        character.Inventory := character.Inventory - {inv.Id};
      }
      return Some(item);
    }

    /** `GetMapItems`: the packets describing the instance to a player
        entering it, for the given iteration orders of the monster, NPC and
        item dictionaries. */
    method GetMapItems(monsterOrder: seq<int>, npcOrder: seq<int>, itemOrder: seq<int>) returns (packets: seq<MapPacket>)
      requires IsEnumeration(monsterOrder, Monsters.Keys)
      requires IsEnumeration(npcOrder, Npcs.Keys)
      requires IsEnumeration(itemOrder, MapItems.Keys)
      ensures packets == MapPackets(Portals, InOrder(Monsters, monsterOrder), InOrder(Npcs, npcOrder), InOrder(MapItems, itemOrder))
    {
      var monsters := InOrder(Monsters, monsterOrder);
      var npcs := InOrder(Npcs, npcOrder);
      var items := InOrder(MapItems, itemOrder);
      ghost var p, m, n, it := PortalPackets(Portals), MonsterPackets(monsters), NpcPackets(npcs), ItemPackets(items);
      packets := AddPortalPackets([], Portals);
      assert packets == p;
      packets := AddMonsterPackets(packets, monsters);
      packets := AddNpcPackets(packets, npcs);
      packets := AddItemPackets(packets, items);
      assert packets == p + m + n + it;
    }

    /** The portal loop: one `gp` per portal, in list order. */
    static method AddPortalPackets(packets: seq<MapPacket>, ps: seq<Portal>) returns (r: seq<MapPacket>)
      ensures r == packets + PortalPackets(ps)
    {
      r := packets;
      for i := 0 to |ps|
        invariant r == packets + PortalPackets(ps[..i])
      {
        assert ps[..i + 1][..i] == ps[..i];
        r := r + [Gp(ps[i])];
      }
      assert ps[..|ps|] == ps;
    }

    /** The monster loop: one `in` per monster. */
    static method AddMonsterPackets(packets: seq<MapPacket>, ms: seq<MapMonster>) returns (r: seq<MapPacket>)
      ensures r == packets + MonsterPackets(ms)
    {
      r := packets;
      for i := 0 to |ms|
        invariant r == packets + MonsterPackets(ms[..i])
      {
        assert ms[..i + 1][..i] == ms[..i];
        r := r + [MonsterIn(ms[i])];
      }
      assert ms[..|ms|] == ms;
    }

    /** The NPC loop: each NPC's `in`, then its `shop` when it has one. */
    static method AddNpcPackets(packets: seq<MapPacket>, ns: seq<MapNpc>) returns (r: seq<MapPacket>)
      ensures r == packets + NpcPackets(ns)
    {
      r := packets;
      for i := 0 to |ns|
        invariant r == packets + NpcPackets(ns[..i])
      {
        assert ns[..i + 1][..i] == ns[..i];
        r := r + [NpcIn(ns[i])];
        if ns[i].HasShop {
          r := r + [Shop(ns[i])];
        }
      }
      assert ns[..|ns|] == ns;
    }

    /** The item loop: one `in` per dropped item. */
    static method AddItemPackets(packets: seq<MapPacket>, items: seq<MapItem>) returns (r: seq<MapPacket>)
      ensures r == packets + ItemPackets(items)
    {
      r := packets;
      for i := 0 to |items|
        invariant r == packets + ItemPackets(items[..i])
      {
        assert items[..i + 1][..i] == items[..i];
        r := r + [ItemIn(items[i])];
      }
      assert items[..|items|] == items;
    }
  }

  // ---------------------------------------------------------------------
  // The packet list of GetMapItems
  // ---------------------------------------------------------------------

  function PortalPackets(ps: seq<Portal>): (r: seq<MapPacket>)
    ensures |r| == |ps|
    ensures forall i :: 0 <= i < |ps| ==> r[i] == Gp(ps[i])
  {
    if ps == [] then [] else PortalPackets(ps[..|ps| - 1]) + [Gp(ps[|ps| - 1])]
  }

  function MonsterPackets(ms: seq<MapMonster>): (r: seq<MapPacket>)
    ensures |r| == |ms|
    ensures forall i :: 0 <= i < |ms| ==> r[i] == MonsterIn(ms[i])
  {
    if ms == [] then [] else MonsterPackets(ms[..|ms| - 1]) + [MonsterIn(ms[|ms| - 1])]
  }

  /** Each NPC's `in`, directly followed by its `shop` when it has one. */
  function NpcPackets(ns: seq<MapNpc>): seq<MapPacket>
  {
    if ns == [] then []
    else
      var n := ns[|ns| - 1];
      NpcPackets(ns[..|ns| - 1]) + [NpcIn(n)] + (if n.HasShop then [Shop(n)] else [])
  }

  function ItemPackets(items: seq<MapItem>): (r: seq<MapPacket>)
    ensures |r| == |items|
    ensures forall i :: 0 <= i < |items| ==> r[i] == ItemIn(items[i])
  {
    if items == [] then [] else ItemPackets(items[..|items| - 1]) + [ItemIn(items[|items| - 1])]
  }

  /** Portals, then monsters, then NPCs, then items. */
  function MapPackets(ps: seq<Portal>, ms: seq<MapMonster>, ns: seq<MapNpc>, items: seq<MapItem>): seq<MapPacket>
  {
    PortalPackets(ps) + MonsterPackets(ms) + NpcPackets(ns) + ItemPackets(items)
  }

  /** The number of NPCs that run a shop. */
  function ShopCount(ns: seq<MapNpc>): nat
  {
    |set i | 0 <= i < |ns| && ns[i].HasShop|
  }

  lemma {:induction false} ShopCountAppend(ns: seq<MapNpc>, n: MapNpc)
    ensures ShopCount(ns + [n]) == ShopCount(ns) + (if n.HasShop then 1 else 0)
  {
    var ext := ns + [n];
    var before := set i | 0 <= i < |ns| && ns[i].HasShop;
    var after := set i | 0 <= i < |ext| && ext[i].HasShop;
    if n.HasShop {
      assert after == before + {|ns|};
    } else {
      assert after == before;
    }
  }

  /** The NPC part is one packet per NPC plus one per shop keeper long. */
  lemma {:induction false} NpcPacketsLength(ns: seq<MapNpc>)
    ensures |NpcPackets(ns)| == |ns| + ShopCount(ns)
  {
    if ns != [] {
      var init := ns[..|ns| - 1];
      NpcPacketsLength(init);
      assert ns == init + [ns[|ns| - 1]];
      ShopCountAppend(init, ns[|ns| - 1]);
    }
  }

  /** The NPC part holds one `in` per NPC and one `shop` per shop keeper,
      and an NPC's packets are exactly its `in` and, for a shop keeper,
      its `shop`. */
  lemma {:induction false} NpcPacketsContents(ns: seq<MapNpc>)
    ensures |NpcPackets(ns)| == |ns| + ShopCount(ns)
    ensures forall n :: NpcIn(n) in NpcPackets(ns) <==> n in ns
    ensures forall n :: Shop(n) in NpcPackets(ns) <==> n in ns && n.HasShop
    ensures forall p :: p in NpcPackets(ns) ==> p.NpcIn? || p.Shop?
  {
    NpcPacketsLength(ns);
    if ns != [] {
      var init := ns[..|ns| - 1];
      var n := ns[|ns| - 1];
      NpcPacketsContents(init);
      assert ns == init + [n];
      forall m ensures NpcIn(m) in NpcPackets(ns) <==> m in ns {
        assert m in ns <==> m in init || m == n;
      }
      forall m ensures Shop(m) in NpcPackets(ns) <==> m in ns && m.HasShop {
        assert m in ns <==> m in init || m == n;
      }
    }
  }

  /** `GetMapItems` lists |portals| + |monsters| + |npcs| + |shops| + |items|
      packets: the portals' `gp` first, then the monsters' `in`, then the
      NPC packets, then the items' `in`. */
  lemma {:induction false} MapPacketsLayout(ps: seq<Portal>, ms: seq<MapMonster>, ns: seq<MapNpc>, items: seq<MapItem>)
    ensures var r := MapPackets(ps, ms, ns, items);
      && |r| == |ps| + |ms| + |ns| + ShopCount(ns) + |items|
      && (forall i :: 0 <= i < |ps| ==> r[i] == Gp(ps[i]))
      && (forall i :: 0 <= i < |ms| ==> r[|ps| + i] == MonsterIn(ms[i]))
      && r[|ps| + |ms|..|ps| + |ms| + |ns| + ShopCount(ns)] == NpcPackets(ns)
      && (forall i :: 0 <= i < |items| ==> r[|ps| + |ms| + |ns| + ShopCount(ns) + i] == ItemIn(items[i]))
  {
    NpcPacketsLength(ns);
    var a, b, c, d := PortalPackets(ps), MonsterPackets(ms), NpcPackets(ns), ItemPackets(items);
    var r := MapPackets(ps, ms, ns, items);
    assert r == a + b + c + d;
    var n := |ps| + |ms| + |ns| + ShopCount(ns);
    forall i | 0 <= i < |ps| ensures r[i] == Gp(ps[i]) {
      assert r[i] == a[i];
    }
    forall i | 0 <= i < |ms| ensures r[|ps| + i] == MonsterIn(ms[i]) {
      assert r[|ps| + i] == (a + b)[|ps| + i];
    }
    assert r[|ps| + |ms|..n] == c by {
      assert r == (a + b) + c + d;
    }
    forall i | 0 <= i < |items| ensures r[n + i] == ItemIn(items[i]) {
      assert r[n + i] == d[i];
    }
  }
}
