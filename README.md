# NosCore game server core, modelled in Dafny

NosCore is a server for an online role-playing game. This project models
three parts of its game logic and proves properties about them.

- **Map instances** (`map_instance.dfy`, module `MapInstanceAccess`). A map
  instance is one running copy of a map.
  - `PutItem` drops part of an item stack. It takes the first cell that is
    not blocked from a shuffled 5x5 neighbourhood of the character, checks
    the amount, splits the stack, registers the dropped item and deletes
    the source stack once it is used up.
  - The `IsSleeping` getter and setter form a two-flag sleep state machine
    with a 30-second grace period after the last player left.
  - `GetMapItems` builds the ordered list of packets a player entering
    the map is sent.
  - One tick of the `StartLife` loop starts the life of every monster and
    NPC unless the instance sleeps.
- **The exchange (trade) protocol** (`exchange_controller.dfy`, module
  `ExchangePacketController`; `exchange_info.dfy`, module `ExchangeInfo`).
  - `RequestExchange` handles the five request types: Requested, List,
    Declined, Confirmed and Cancelled.
  - Each character has flags, an `ExchangeInfoService` holding its exchange
    partner id (`ExchangeData.TargetVisualId`), and a table of the
    proposals it has sent.
  - The handler is written imperatively over `Character` objects. Each
    request is proved to have exactly the effect of the value-level state
    machine `RequestExchangeStep`, on a snapshot of all online characters.
  - The protocol properties are lemmas about that state machine: the guard
    order, symmetric pairing, symmetric reset, and "nothing else changes".
- **Character arithmetic and relations** (`character.dfy`, module
  `Characters`).
  - The speed cap of 59, and the dignity and reputation icon brackets.
    Because `IsReputHero` is always 0, the hero ranks never show.
  - The friend-list limit of 80.
  - The relation dictionary: `AddRelation`, `DeleteBlackList`,
    `IsRelatedToCharacter`, and the `blinit` (blacklist) and `finit`
    (friend list) packets.

Shared vocabulary is in `common.dfy`:

- `Option`/`Result`;
- `short` and `byte`, and the `(short)` cast;
- `Guid`;
- dictionary iteration orders.

`packets.dfy` holds the packet records and message keys. `items.dfy` holds
item stacks.

The inputs the server takes from its runtime are parameters here:

- the clock (`now`, in milliseconds);
- `Guid.NewGuid()` (`requestId`, `newItemId`);
- the random shuffle of drop cells (`shuffle`, any permutation of the 25
  offsets);
- `Map.IsBlockedZone` (`isBlocked`);
- `ServerManager.IsCharacterConnected` (`isConnected`) and the names of
  online characters (`onlineNames`);
- the id the item builder gives a dropped item (`droppedVisualId`);
- the iteration order of every `ConcurrentDictionary` (an `order`
  sequence listing each key once).

`Broadcaster.Instance.GetCharacter` is a lookup in a map from VisualId to
`Character`. Every `SendPacket` appends a packet record to the receiving
character's `Outbox`.

The model makes these assumptions about code that is not part of it:

- `InExchangeOrShop` means `InExchange || InShop`. With that reading, the
  HAS_SHOP_OPENED rejection of a Requested request can never happen. The
  model proves that branch dead (`RequestedVerdict`, and an `assert false`
  in `RequestedCase`).
- `new ExchangeData()` has partner id 0.
- A freshly built monster or NPC has no running life.
- `Dignity` is fractional (the code casts it with `(int)Dignity` when it
  builds the `fd` packet, Character.cs:131), so the model stores it as a `real`;
  `GetDignityIco` compares the unrounded value.
- After `DeleteBlackList` removes a relation, the dictionary enumerates the
  remaining relations in the order it had before, without the removed key
  (`RemoveKey(order, removed)`). `ConcurrentDictionary` does not promise
  this.
- The item builder may hand `PutItem` an id that is already on the map;
  the indexer store then overwrites that entry. `MapItems` gains exactly
  one entry when the id is new.

Three details of the code that the model keeps:

- A new map instance starts asleep (`_isSleeping = true`, MapInstance.cs:79).
- It falls asleep only more than 30 s after `LastUnregister`
  (the getter keeps it awake while `LastUnregister.AddSeconds(30) >=
  SystemTime.Now()`, MapInstance.cs:98); at exactly 30 s it stays awake.
- The blacklist guard of a Requested request checks the requester's own
  Blocked relation to the target (ExchangePacketController.cs:62).

Two things the code does are proved as written, without adding guards:

- `List` checks neither the accepting character's own flags nor whether a
  proposal is pending (`ListIgnoresAcceptorAndProposal`).
- Near the edges of the `short` range the `(short)` cast of the drop
  coordinates wraps around. The "within distance 2" property is proved only
  away from those edges (`DropIsNearby`).

## Model

| member | source | states |
|---|---|---|
| Common.ToShort | src/NosCore.GameObject/Services/MapInstanceAccess/MapInstance.cs:170-171 | the `(short)` cast is the identity exactly on the `short` range and otherwise differs from its argument by a multiple of 2^16 |
| Common.RemoveKeyEnumerates | src/NosCore.GameObject/Character.cs:296-297 | after one relation is removed, the remaining iteration order lists each remaining key exactly once |
| ExchangeInfo.TryAdd | src/NosCore.Controllers/ExchangePacketController.cs:80 | `TryAdd` adds the key, never overwrites an existing entry, and grows the table by one exactly when the key is new |
| ExchangeInfo.ProposalsCoexist | src/NosCore.GameObject/Services/ExchangeInfo/ExchangeInfoService.cs:37 | proposals are keyed by their own Guid: two proposals to the same target coexist, and re-filing under a used Guid changes nothing |
| ExchangeInfo.ExchangeInfoService.constructor | src/NosCore.GameObject/Services/ExchangeInfo/ExchangeInfoService.cs:29-33 | a new holder has the default exchange data (the value a reset re-installs) and an empty request table |
| ExchangeInfo.ExchangeInfoService.SetExchangeData | src/NosCore.GameObject/Services/ExchangeInfo/ExchangeInfoService.cs:35 | replacing the exchange data installs the new value; the frame leaves the request table untouched |
| ExchangeInfo.ExchangeInfoService.SetTargetVisualId | src/NosCore.Controllers/ExchangePacketController.cs:96-97 | setting the partner id changes that field only |
| ExchangeInfo.ExchangeInfoService.TryAddRequest | src/NosCore.Controllers/ExchangePacketController.cs:80 | reports whether the Guid was new, and the table becomes `TryAdd` of the old table |
| Items.ItemInstance.Clone | src/NosCore.GameObject/Services/MapInstanceAccess/MapInstance.cs:190 | the clone is a new object with the same id, template and amount |
| Characters.GetReputIco | src/NosCore.GameObject/Character.cs:417-566 | the icon is in 1..27 and is the bracket of the reputation (icon i exactly when reputation is above level i-1 and at most level i); it is 1 up to 50 and 27 from 5000001, since the hero branch is dead (`IsReputHero` is 0, Character.cs:169-199) |
| Characters.ReputIcoMonotone | src/NosCore.GameObject/Character.cs:417-566 | a higher reputation never earns a lower icon |
| Characters.ReputIcoEdges | src/NosCore.GameObject/Character.cs:417-566 | reputation 50 gives icon 1, 51 gives 2, 5000000 gives 26 and 5000001 gives 27 |
| Characters.BracketsOrdered | src/NosCore.GameObject/Character.cs:417-566 | with strictly increasing levels, the bracket index is monotone in the value |
| Characters.DignityIcoAntitone | src/NosCore.GameObject/Character.cs:137-167 | a higher dignity never earns a higher icon |
| Characters.IsReputHero | src/NosCore.GameObject/Character.cs:169-199 | the hero ranking is disabled: the rank is never in 1..5, so no character earns a hero icon |
| Characters.IsFriendListFull | src/NosCore.GameObject/Character.cs:42-45 | a list counts as full only when it holds at least 80 relations; how the count moves is given by the Friend-count lemmas below |
| Characters.IsRelatedToCharacter | src/NosCore.GameObject/Character.cs:412-415 | whenever it holds, a stored relation (a value of the dictionary, which `Values.Any` scans) has the type, points at the other character and is owned by this character; RelatedAfterPut gives how it changes |
| Characters.FriendKeysAfterPut | src/NosCore.GameObject/Character.cs:42-45 | storing a relation under a key changes the set of Friend keys only at that key |
| Characters.FriendCountAfterInsert | src/NosCore.GameObject/Character.cs:42-45 | adding a relation under a new key raises the Friend count, which `IsFriendListFull` compares with 80, by one exactly when it is a Friend relation |
| Characters.FriendKeysAfterRemovingNonFriend | src/NosCore.GameObject/Character.cs:42-45 | removing a non-Friend relation, such as a blacklist entry, leaves the Friend count and `IsFriendListFull` unchanged |
| Characters.RelatedAfterPut | src/NosCore.GameObject/Character.cs:412-415 | after a relation is stored, `IsRelatedToCharacter` holds exactly when the new relation matches or a relation under another key matches |
| Characters.InOrderCoversRelations | src/NosCore.GameObject/Character.cs:244 | an iteration order visits every relation |
| Characters.FindBlocked | src/NosCore.GameObject/Character.cs:285 | the search finds nothing if and only if no relation blacklists the character; otherwise it returns the first blacklist entry for it in iteration order |
| Characters.NotFoundMeansNotBlacklisted | src/NosCore.GameObject/Character.cs:285-293 | when the search finds nothing, `IsRelatedToCharacter(id, Blocked)` is false |
| Characters.BlinitMembership | src/NosCore.GameObject/Character.cs:241-259 | a `blinit` entry exists exactly for each Blocked relation whose related character is not the character itself |
| Characters.BlinitOrder | src/NosCore.GameObject/Character.cs:241-259 | `blinit` entries follow the iteration order |
| Characters.FinitMembership | src/NosCore.GameObject/Character.cs:261-281 | a `finit` entry exists exactly for each Friend or Spouse relation to another character, with its online state |
| Characters.FinitOrder | src/NosCore.GameObject/Character.cs:261-281 | `finit` entries follow the iteration order |
| Characters.Character.constructor | src/NosCore.GameObject/Character.cs:28-32 | a new character has no relations and its own fresh, empty exchange holder |
| Characters.Character.InExchangeOrShop | src/NosCore.Controllers/ExchangePacketController.cs:50 | assumed: a character in an exchange, or running a shop, is in an exchange or shop; this is what makes HAS_SHOP_OPENED unreachable |
| Characters.Character.Speed | src/NosCore.GameObject/Character.cs:74-91 | the speed read is never above 59, and it is the stored speed whenever that is within the cap |
| Characters.Character.SetSpeed | src/NosCore.GameObject/Character.cs:93-97 | the setter stores min(value, 59), the getter then returns exactly the stored value, and the change time is recorded |
| Characters.Character.GetDignityIco | src/NosCore.GameObject/Character.cs:137-167 | the icon is in 1..6 and is the dignity bracket: 1 above -100, 6 at -800 or below |
| Characters.Character.GenerateBlinit | src/NosCore.GameObject/Character.cs:241-259 | the loop produces the `blinit` list of the relations in iteration order (its contents and order are given by BlinitMembership and BlinitOrder) |
| Characters.Character.GenerateFinit | src/NosCore.GameObject/Character.cs:261-281 | the loop produces the `finit` list of the relations in iteration order (see FinitMembership and FinitOrder) |
| Characters.Character.DeleteBlackList | src/NosCore.GameObject/Character.cs:283-298 | with no blacklist entry for the id, relations are unchanged and CANT_FIND_CHARACTER is sent; otherwise exactly the first such relation is removed and the new blacklist is sent |
| Characters.Character.AddRelation | src/NosCore.GameObject/Character.cs:300-319 | the relation is stored under its id, overwriting any entry there while every other key is unchanged; the character becomes related to the other one; the blacklist is sent for Blocked and the friend list otherwise |
| ExchangePacketController.RequestedVerdict | src/NosCore.Controllers/ExchangePacketController.cs:50-72 | the guards fire in order: either side in an exchange or shop gives ALREADY_EXCHANGE; otherwise a target blocking requests gives EXCHANGE_BLOCKED; otherwise a requester blacklisting the target gives BLACKLIST_BLOCKED; HAS_SHOP_OPENED is unreachable; the request is accepted exactly when no guard fires |
| ExchangePacketController.RequestedStep | src/NosCore.Controllers/ExchangePacketController.cs:44-88 | a Requested request keeps the set of online characters and puts nobody in an exchange nor gives anybody a partner |
| ExchangePacketController.ListStep | src/NosCore.Controllers/ExchangePacketController.cs:90-114 | a List request keeps the online set, neither consults nor removes any filed proposal, and never changes a shop flag |
| ExchangePacketController.DeclinedStep | src/NosCore.Controllers/ExchangePacketController.cs:115-118 | a Declined request changes outboxes only |
| ExchangePacketController.CancelledStep | src/NosCore.Controllers/ExchangePacketController.cs:129-144 | after a Cancelled request the sender is outside any exchange with default exchange data, and the online set is kept |
| ExchangePacketController.RequestExchangeStep | src/NosCore.Controllers/ExchangePacketController.cs:38-148 | the request fails exactly when its type is none of the five, and otherwise keeps the set of online characters |
| ExchangePacketController.RequestedConfined | src/NosCore.Controllers/ExchangePacketController.cs:44-88 | a Requested request changes only the requester and the target, and never their shop flag, request blocking or relations |
| ExchangePacketController.ListConfined | src/NosCore.Controllers/ExchangePacketController.cs:90-114 | a List request changes only the two parties, and not those fields |
| ExchangePacketController.DeclinedConfined | src/NosCore.Controllers/ExchangePacketController.cs:115-118 | a Declined request changes only the two parties, and not those fields |
| ExchangePacketController.CancelledConfined | src/NosCore.Controllers/ExchangePacketController.cs:129-144 | a Cancelled request changes only the sender and its stored partner, and not those fields |
| ExchangePacketController.StepFrame | src/NosCore.Controllers/ExchangePacketController.cs:38-147 | only a request type outside the five throws; every other request keeps the set of online characters and changes no character outside its parties |
| ExchangePacketController.RequestedUnresolvedDoesNothing | src/NosCore.Controllers/ExchangePacketController.cs:44-48 | Requested with a target that is not online changes nothing and sends nothing |
| ExchangePacketController.RequestedRejected | src/NosCore.Controllers/ExchangePacketController.cs:50-72 | a rejected Requested request sends the requester exactly the one message of the first failing guard, adds no proposal, and changes nobody else |
| ExchangePacketController.RequestedAccepted | src/NosCore.Controllers/ExchangePacketController.cs:74-88 | an accepted Requested request adds exactly one proposal (new Guid to target VisualId) and changes no flag or partner id; it sends the requester YOU_ASK_FOR_EXCHANGE and the target a dialog whose yes/no answers are List/Declined naming the requester |
| ExchangePacketController.ListRefused | src/NosCore.Controllers/ExchangePacketController.cs:91-94 | List with a target that is missing, or already in an exchange or shop, changes nothing |
| ExchangePacketController.ListPairs | src/NosCore.Controllers/ExchangePacketController.cs:96-113 | otherwise each side's partner id is the other's VisualId, both are in the exchange, and each is sent one `exc_list` with gold -1 naming the other |
| ExchangePacketController.ListIgnoresAcceptorAndProposal | src/NosCore.Controllers/ExchangePacketController.cs:90-99 | List pairs even when the accepting character runs a shop and no proposal is pending; that character is then both in an exchange and in its shop |
| ExchangePacketController.DeclinedAndConfirmedKeepState | src/NosCore.Controllers/ExchangePacketController.cs:115-128 | Confirmed changes nothing, and Declined changes only outboxes: EXCHANGE_REFUSED goes to the sender and to the named character when it is online |
| ExchangePacketController.CancelledResets | src/NosCore.Controllers/ExchangePacketController.cs:129-144 | the sender always leaves the exchange with default exchange data and gets `exc_close`, whether or not the partner is online; an online partner gets the same |
| ExchangePacketController.ProposeAcceptCancel | src/NosCore.Controllers/ExchangePacketController.cs:44-144 | a full run (A proposes, B accepts, A cancels) delivers the dialog to B, pairs both with `exc_list`, and leaves both idle with `exc_close` |
| ExchangePacketController.RequestedCase | src/NosCore.Controllers/ExchangePacketController.cs:44-88 | the imperative Requested branch has exactly the effect of the Requested step on the snapshot of online characters |
| ExchangePacketController.ListCase | src/NosCore.Controllers/ExchangePacketController.cs:90-114 | the imperative List branch has exactly the effect of the List step |
| ExchangePacketController.DeclinedCase | src/NosCore.Controllers/ExchangePacketController.cs:115-118 | the imperative Declined branch has exactly the effect of the Declined step |
| ExchangePacketController.CancelledCase | src/NosCore.Controllers/ExchangePacketController.cs:129-144 | the imperative Cancelled branch, including the case where the stored partner is the sender itself, has exactly the effect of the Cancelled step |
| ExchangePacketController.RequestExchange | src/NosCore.Controllers/ExchangePacketController.cs:38-148 | on the character objects the handler has exactly the effect of `RequestExchangeStep`; an unknown type is an error with no effect; only outboxes, `InExchange` and exchange holders are in the frame |
| MapInstanceAccess.ReadSleeping | src/NosCore.GameObject/Services/MapInstanceAccess/MapInstance.cs:96-106 | the getter returns the sleep flag as it stands after the read |
| MapInstanceAccess.WriteSleeping | src/NosCore.GameObject/Services/MapInstanceAccess/MapInstance.cs:108-119 | writing `true` files a sleep request and leaves the sleep flag alone; writing `false` clears both flags |
| MapInstanceAccess.ReadSleepingCases | src/NosCore.GameObject/Services/MapInstanceAccess/MapInstance.cs:96-106 | a read reports sleeping if and only if the instance already slept or a pending request is more than 30 s past `LastUnregister`; the flags change only in the second case, to asleep with no request |
| MapInstanceAccess.GraceBoundaryStaysAwake | src/NosCore.GameObject/Services/MapInstanceAccess/MapInstance.cs:96 | at exactly 30 s the instance stays awake |
| MapInstanceAccess.ReadSleepingIdempotent | src/NosCore.GameObject/Services/MapInstanceAccess/MapInstance.cs:96-106 | reading twice at the same time is the same as reading once |
| MapInstanceAccess.AsleepStaysAsleep | src/NosCore.GameObject/Services/MapInstanceAccess/MapInstance.cs:96-119 | a sleeping instance reads as sleeping at any time; only setting `false` wakes it |
| MapInstanceAccess.WriteSleepingEffects | src/NosCore.GameObject/Services/MapInstanceAccess/MapInstance.cs:108-119 | setting `true` only raises the request flag; setting `false` clears both flags, so no read reports sleeping until a new request |
| MapInstanceAccess.WakeRequestSleep | src/NosCore.GameObject/Services/MapInstanceAccess/MapInstance.cs:79-119 | a new instance reads as sleeping; after a wake-up and a request it stays awake through the grace period and sleeps after it |
| MapInstanceAccess.NeighbourhoodIsSquare | src/NosCore.GameObject/Services/MapInstanceAccess/MapInstance.cs:156-162 | the possibilities are exactly the 25 offsets in [-2,2]², each once |
| MapInstanceAccess.FirstFree | src/NosCore.GameObject/Services/MapInstanceAccess/MapInstance.cs:168-178 | nothing is found if and only if every cell is blocked; otherwise the result is the first cell that is not blocked |
| MapInstanceAccess.DropIsNearby | src/NosCore.GameObject/Services/MapInstanceAccess/MapInstance.cs:156-178 | away from the edges of the `short` range, the accepted cell is within Chebyshev distance 2 of the character |
| MapInstanceAccess.MapInstance.constructor | src/NosCore.GameObject/Services/MapInstanceAccess/MapInstance.cs:64-86 | a new instance is asleep with no request, `LastUnregister` is 60 s before now, both rates are 1, and it has no portals, monsters, NPCs or items |
| MapInstanceAccess.MapInstance.LoadMonsters | src/NosCore.GameObject/Services/MapInstanceAccess/MapInstance.cs:204-207 | installs the built monsters while keeping the invariant that a sleeping instance runs no life |
| MapInstanceAccess.MapInstance.LoadNpcs | src/NosCore.GameObject/Services/MapInstanceAccess/MapInstance.cs:209-212 | the same for NPCs |
| MapInstanceAccess.MapInstance.IsSleeping | src/NosCore.GameObject/Services/MapInstanceAccess/MapInstance.cs:94-107 | flags and result follow `ReadSleeping`; falling asleep stops every monster and NPC and nothing else changes them; a sleeping instance runs no life |
| MapInstanceAccess.MapInstance.SetIsSleeping | src/NosCore.GameObject/Services/MapInstanceAccess/MapInstance.cs:108-119 | flags follow `WriteSleeping`, and the invariant is kept |
| MapInstanceAccess.MapInstance.LifeTick | src/NosCore.GameObject/Services/MapInstanceAccess/MapInstance.cs:245-256 | one tick reads the sleep state; if the instance is awake, every monster and NPC lives afterwards, and if it sleeps they are left as the read left them |
| MapInstanceAccess.MapInstance.Possibilities | src/NosCore.GameObject/Services/MapInstanceAccess/MapInstance.cs:154-162 | the nested loops build the 25 offsets, x outer and y inner |
| MapInstanceAccess.MapInstance.FindFreeCell | src/NosCore.GameObject/Services/MapInstanceAccess/MapInstance.cs:164-178 | the search loop finds a spot if and only if `FirstFree` does, and then returns that cell's map coordinates |
| MapInstanceAccess.MapInstance.PutItem | src/NosCore.GameObject/Services/MapInstanceAccess/MapInstance.cs:150-202 | fails with no state change when every cell is blocked or the amount is outside 1..inv.Amount; otherwise it gives a fresh stack with the new Guid and `amount` on the first free cell, stores the dropped item under its VisualId, so the key set becomes the old one plus that id and the count grows by one exactly when the id was not on the map before, lowers `inv.Amount` by exactly `amount`, and removes the stack from the inventory if and only if nothing is left |
| MapInstanceAccess.MapInstance.GetMapItems | src/NosCore.GameObject/Services/MapInstanceAccess/MapInstance.cs:214-231 | the packet list is `MapPackets` of the portals, monsters, NPCs and items in iteration order |
| MapInstanceAccess.MapInstance.AddPortalPackets | src/NosCore.GameObject/Services/MapInstanceAccess/MapInstance.cs:218 | the portal loop appends one `gp` per portal, in order |
| MapInstanceAccess.MapInstance.AddMonsterPackets | src/NosCore.GameObject/Services/MapInstanceAccess/MapInstance.cs:219 | the monster loop appends one `in` per monster, in order |
| MapInstanceAccess.MapInstance.AddNpcPackets | src/NosCore.GameObject/Services/MapInstanceAccess/MapInstance.cs:220-228 | the NPC loop appends each NPC's `in`, followed by its `shop` when it has one |
| MapInstanceAccess.MapInstance.AddItemPackets | src/NosCore.GameObject/Services/MapInstanceAccess/MapInstance.cs:229 | the item loop appends one `in` per item, in order |
| MapInstanceAccess.PortalPackets | src/NosCore.GameObject/Services/MapInstanceAccess/MapInstance.cs:218 | one `gp` per portal, at the portal's position |
| MapInstanceAccess.MonsterPackets | src/NosCore.GameObject/Services/MapInstanceAccess/MapInstance.cs:219 | one `in` per monster, at the monster's position |
| MapInstanceAccess.ItemPackets | src/NosCore.GameObject/Services/MapInstanceAccess/MapInstance.cs:229 | one `in` per item, at the item's position |
| MapInstanceAccess.NpcPacketsContents | src/NosCore.GameObject/Services/MapInstanceAccess/MapInstance.cs:220-228 | the NPC part has one `in` per NPC and one `shop` per shop keeper, and nothing else |
| MapInstanceAccess.MapPacketsLayout | src/NosCore.GameObject/Services/MapInstanceAccess/MapInstance.cs:214-231 | the list holds \|portals\| + \|monsters\| + \|npcs\| + \|shops\| + \|items\| packets: portals first, then monsters, then the NPC part, then items |

## Left out

- Network, localisation and logging. Packets are records in an outbox, message texts are their `LanguageKey`, and the CANT_FIND_CHARACTER log of Confirmed is dropped.
- Concurrency. This covers the `Parallel.ForEach` fan-out, the `Observable.Interval` timer of `StartLife` (only one tick is modelled), the thread-safety of `ConcurrentDictionary`, and the DotNetty channel group.
- The actual item and gold transfer on Confirmed, and clearing offered items on Cancelled. The code does not implement either.
- `MapMonster`/`MapNpc` life loops and the entity builders. `StartLife`/`StopLife` are the `Living` flag of value records, so one entity's update in place and aliasing between entities are not modelled. The builders' results are parameters of `LoadMonsters`/`LoadNpcs`.
- `GenerateCMap`, `Map`, `MapInstanceType` and `Sessions`. None of them is part of the modelled behaviour.
- The packet builders that only copy fields (`GenerateIn`, `GenerateGp`, `GenerateShop`, `GenerateAt`, `GenerateCInfo`, `GenerateTit`, `GenerateStat`, `GenerateTalk`, `GenerateFinfo`). The model keeps the tagged entity instead.
- The wire codec. `ExcListPacket.cs` only declares attributes, and `IAliveEntity.cs` and `I18N_NpcMonsterDTO.cs` are declarations only.
- `UpdateFriendList`, `DeleteTargetRelation`, `GetRelation`, `DeleteRelation` and `Save`. They go through the web API and the database.
- `LoadSpeed`, `HPLoad` and `MPLoad`. They read static tables with floating-point multipliers.
- `EncryptionExtension.cs`. It wraps the library SHA-512 hash with no logic of its own.
- `ExchangeData` is reduced to its partner id. Its other fields are not part of this model.
- The `CharacterRelationId` a new relation gets from its DTO is the `relationId` parameter.
- `Speed`: the buff bonus is the constant 0, as in the code, and `MovementImpossible` is commented out there.
- `MapInstanceAccess.DropIsNearby`: is stated only away from the edges of the `short` range, because the `(short)` cast wraps around there.
