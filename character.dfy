/** A player character: its speed cap, its reputation and dignity icons, and
    the bookkeeping of its relations (friends, spouse, blacklist), together
    with the session-scoped flags and exchange holder the exchange handler
    uses. Packets sent to the character's session are appended to `Outbox`. */
module Characters {
  import opened Common
  import opened Packets
  import opened ExchangeInfo
  import opened Items

  /** `CharacterRelationDTO`: `CharacterId` owns the relation,
      `RelatedCharacterId` is the other character. */
  datatype CharacterRelation = CharacterRelation(
    CharacterRelationId: int,
    CharacterId: int,
    RelatedCharacterId: int,
    RelationType: CharacterRelationType,
    CharacterName: Option<string>)

  type Relations = map<int, CharacterRelation>

  /** Speed above this value is cut down to it. */
  const MaxSpeed: byte := 59

  /** A friend list with this many friends is full. */
  const FriendListCapacity: nat := 80

  // ---------------------------------------------------------------------
  // Dignity and reputation icons
  // ---------------------------------------------------------------------

  /** Dignity at or below `DignityLevels[i]` earns at least icon `i + 2`. */
  const DignityLevels: seq<real> := [-100.0, -200.0, -400.0, -600.0, -800.0]

  /** Icon `ico` is the one for `dignity`: the dignity brackets, from icon 1
      for dignity above -100 down to icon 6 for dignity at most -800. */
  predicate InDignityBracket(dignity: real, ico: int)
  {
    && 1 <= ico <= 6
    && (ico > 1 ==> dignity <= DignityLevels[ico - 2])
    && (ico < 6 ==> dignity > DignityLevels[ico - 1])
  }

  /** The upper ends of the reputation brackets: reputation at most
      `ReputLevels[i]` (and above the previous level) earns icon `i + 1`;
      reputation above the last level earns icon 27. */
  const ReputLevels: seq<int> := [
    50, 150, 250, 500, 750, 1000, 2250, 3500, 5000, 9500, 19000, 25000, 40000,
    60000, 85000, 115000, 150000, 190000, 235000, 285000, 350000, 500000,
    1500000, 2500000, 3750000, 5000000]

  predicate InReputBracket(reput: int, ico: int)
  {
    && 1 <= ico <= 27
    && (ico <= 26 ==> reput <= ReputLevels[ico - 1])
    && (ico >= 2 ==> reput > ReputLevels[ico - 2])
  }

  /** `IsReputHero`: the hero ranking is disabled, so no character holds a
      hero rank. */
  function IsReputHero(): (rank: int)
    ensures !(1 <= rank <= 5)
  {
    0
  }

  /** `GetReputIco`. Hero ranks 1 to 5 would earn icons 28 to 32, but since
      no character holds one, the icon is always the reputation bracket. */
  function GetReputIco(reput: int): (ico: int)
    ensures InReputBracket(reput, ico)
    ensures reput <= 50 ==> ico == 1
    ensures reput >= 5000001 ==> ico == 27
  {
    if reput >= 5000001 && 1 <= IsReputHero() <= 5 then 27 + IsReputHero()
    else if reput <= 50 then 1
    else if reput <= 150 then 2
    else if reput <= 250 then 3
    else if reput <= 500 then 4
    else if reput <= 750 then 5
    else if reput <= 1000 then 6
    else if reput <= 2250 then 7
    else if reput <= 3500 then 8
    else if reput <= 5000 then 9
    else if reput <= 9500 then 10
    else if reput <= 19000 then 11
    else if reput <= 25000 then 12
    else if reput <= 40000 then 13
    else if reput <= 60000 then 14
    else if reput <= 85000 then 15
    else if reput <= 115000 then 16
    else if reput <= 150000 then 17
    else if reput <= 190000 then 18
    else if reput <= 235000 then 19
    else if reput <= 285000 then 20
    else if reput <= 350000 then 21
    else if reput <= 500000 then 22
    else if reput <= 1500000 then 23
    else if reput <= 2500000 then 24
    else if reput <= 3750000 then 25
    else if reput <= 5000000 then 26
    else 27
  }

  /** The brackets of a strictly increasing list of levels are ordered like
      the values they contain. */
  lemma {:induction false} BracketsOrdered(levels: seq<int>, a: int, b: int, ia: int, ib: int)
    requires forall i, j :: 0 <= i < j < |levels| ==> levels[i] < levels[j]
    requires 1 <= ia <= |levels| + 1 && 1 <= ib <= |levels| + 1
    requires ia >= 2 ==> a > levels[ia - 2]
    requires ib <= |levels| ==> b <= levels[ib - 1]
    requires a <= b
    ensures ia <= ib
  {
    if ib <= |levels| && ia >= 2 {
      assert levels[ia - 2] < levels[ib - 1];
    }
  }

  /** A higher reputation never earns a lower icon. */
  lemma ReputIcoMonotone(a: int, b: int)
    requires a <= b
    ensures GetReputIco(a) <= GetReputIco(b)
  {
    ReputLevelsIncrease();
    BracketsOrdered(ReputLevels, a, b, GetReputIco(a), GetReputIco(b));
  }

  lemma ReputLevelsIncrease()
    ensures forall i, j :: 0 <= i < j < |ReputLevels| ==> ReputLevels[i] < ReputLevels[j]
  {
  }

  /** The reputation icons at the edges of the first and last brackets. */
  lemma ReputIcoEdges()
    ensures GetReputIco(50) == 1 && GetReputIco(51) == 2
    ensures GetReputIco(5000000) == 26 && GetReputIco(5000001) == 27
  {
  }

  /** A higher dignity never earns a higher icon. */
  lemma DignityIcoAntitone(a: real, b: real, ia: int, ib: int)
    requires a <= b && InDignityBracket(a, ia) && InDignityBracket(b, ib)
    ensures ib <= ia
  {
  }

  // ---------------------------------------------------------------------
  // Relations
  // ---------------------------------------------------------------------

  /** Every relation is stored under its own id. */
  predicate KeyedById(rels: Relations)
  {
    forall k :: k in rels ==> rels[k].CharacterRelationId == k
  }

  /** The keys of the Friend relations. */
  function FriendKeys(rels: Relations): set<int>
  {
    set k | k in rels && rels[k].RelationType == Friend
  }

  /** `IsFriendListFull`: at least 80 relations are of type Friend. A
      character with fewer than 80 relations of any type is never full. */
  predicate IsFriendListFull(rels: Relations)
    ensures IsFriendListFull(rels) ==> |rels| >= FriendListCapacity
  {
    assert rels.Keys == FriendKeys(rels) + (rels.Keys - FriendKeys(rels));
    |FriendKeys(rels)| >= FriendListCapacity
  }

  /** `IsRelatedToCharacter`: some relation owned by `ownId` has type `t`
      and points at `characterId`. */
  predicate IsRelatedToCharacter(rels: Relations, ownId: int, characterId: int, t: CharacterRelationType)
    ensures IsRelatedToCharacter(rels, ownId, characterId, t) ==>
      exists r :: r in rels.Values && r.RelationType == t && r.RelatedCharacterId == characterId && r.CharacterId == ownId
  {
    assert forall k :: k in rels ==> rels[k] in rels.Values;
    exists k :: k in rels && rels[k].RelationType == t
      && rels[k].RelatedCharacterId == characterId && rels[k].CharacterId == ownId
  }

  /** Storing a relation under key `k` replaces whatever was there: `k` is a
      Friend key afterwards exactly when the new relation is a Friend one. */
  lemma FriendKeysAfterPut(rels: Relations, k: int, r: CharacterRelation)
    ensures FriendKeys(rels[k := r]) == FriendKeys(rels) - {k} + (if r.RelationType == Friend then {k} else {})
  {
  }

  /** Adding a relation under a new key adds one friend when it is a Friend
      relation and none otherwise. */
  lemma {:induction false} FriendCountAfterInsert(rels: Relations, k: int, r: CharacterRelation)
    requires k !in rels
    ensures |FriendKeys(rels[k := r])| == |FriendKeys(rels)| + (if r.RelationType == Friend then 1 else 0)
  {
    FriendKeysAfterPut(rels, k, r);
    assert k !in FriendKeys(rels);
    assert FriendKeys(rels) - {k} == FriendKeys(rels);
  }

  /** Removing a non-Friend relation leaves the friend count, and so
      `IsFriendListFull`, as it was. */
  lemma {:induction false} FriendKeysAfterRemovingNonFriend(rels: Relations, k: int)
    requires k in rels && rels[k].RelationType != Friend
    ensures FriendKeys(rels - {k}) == FriendKeys(rels)
    ensures IsFriendListFull(rels - {k}) == IsFriendListFull(rels)
  {
    assert forall x :: x in FriendKeys(rels - {k}) <==> x in FriendKeys(rels);
  }

  /** After a relation is stored under `k`, the character is related to a
      character with a type exactly when the new relation says so or some
      other stored relation already did. */
  lemma RelatedAfterPut(rels: Relations, k: int, r: CharacterRelation, ownId: int, characterId: int, t: CharacterRelationType)
    ensures IsRelatedToCharacter(rels[k := r], ownId, characterId, t)
        <==> (r.RelationType == t && r.RelatedCharacterId == characterId && r.CharacterId == ownId)
             || IsRelatedToCharacter(rels - {k}, ownId, characterId, t)
  {
    var after := rels[k := r];
    if IsRelatedToCharacter(after, ownId, characterId, t) {
      var j :| j in after && after[j].RelationType == t
        && after[j].RelatedCharacterId == characterId && after[j].CharacterId == ownId;
      if j != k {
        assert j in rels - {k};
      }
    }
    if IsRelatedToCharacter(rels - {k}, ownId, characterId, t) {
      var j :| j in rels - {k} && (rels - {k})[j].RelationType == t
        && (rels - {k})[j].RelatedCharacterId == characterId && (rels - {k})[j].CharacterId == ownId;
      assert j in after && after[j] == rels[j];
    }
    if r.RelationType == t && r.RelatedCharacterId == characterId && r.CharacterId == ownId {
      assert k in after && after[k] == r;
    }
  }

  /** Every relation appears in an enumeration of the relations. */
  lemma InOrderCoversRelations(rels: Relations, order: seq<int>, k: int)
    requires IsEnumeration(order, rels.Keys) && k in rels
    ensures rels[k] in InOrder(rels, order)
  {
    var i :| 0 <= i < |order| && order[i] == k;
    assert InOrder(rels, order)[i] == rels[k];
  }

  /** The relation `r` is a blacklist entry for `characterId`. */
  predicate BlocksCharacter(r: CharacterRelation, characterId: int)
  {
    r.RelatedCharacterId == characterId && r.RelationType == Blocked
  }

  /** The `FirstOrDefault` search of `DeleteBlackList`: the first relation,
      in iteration order, that blacklists `characterId`. */
  function FindBlocked(rels: Relations, order: seq<int>, characterId: int): (found: Option<CharacterRelation>)
    requires forall i :: 0 <= i < |order| ==> order[i] in rels
    ensures found.None? <==> forall i :: 0 <= i < |order| ==> !BlocksCharacter(rels[order[i]], characterId)
    ensures found.Some? ==> BlocksCharacter(found.value, characterId)
    ensures found.Some? ==>
      exists i :: && 0 <= i < |order| && rels[order[i]] == found.value
                  && (forall j :: 0 <= j < i ==> !BlocksCharacter(rels[order[j]], characterId))
  {
    if order == [] then None
    else if BlocksCharacter(rels[order[0]], characterId) then Some(rels[order[0]])
    else
      var rest := FindBlocked(rels, order[1..], characterId);
      assert forall i :: 1 <= i < |order| ==> order[i] == order[1..][i - 1];
      rest
  }

  /** When the search finds nothing, the character has not blacklisted
      `characterId` at all (whoever owns the relation). */
  lemma NotFoundMeansNotBlacklisted(rels: Relations, order: seq<int>, ownId: int, characterId: int)
    requires IsEnumeration(order, rels.Keys)
    requires FindBlocked(rels, order, characterId).None?
    ensures !IsRelatedToCharacter(rels, ownId, characterId, Blocked)
  {
    forall k | k in rels ensures !BlocksCharacter(rels[k], characterId) {
      var i :| 0 <= i < |order| && order[i] == k;
      assert !BlocksCharacter(rels[order[i]], characterId);
    }
  }

  /** The relation `r` is listed in a `blinit` packet of the character `ownId`. */
  predicate IsBlinitEntry(r: CharacterRelation, ownId: int)
  {
    r.RelationType == Blocked && r.RelatedCharacterId != ownId
  }

  /** The relation `r` is listed in a `finit` packet of the character `ownId`. */
  predicate IsFinitEntry(r: CharacterRelation, ownId: int)
  {
    (r.RelationType == Friend || r.RelationType == Spouse) && r.RelatedCharacterId != ownId
  }

  function BlinitSubPacketOf(r: CharacterRelation): BlinitSubPacket
  {
    BlinitSubPacket(r.RelatedCharacterId, r.CharacterName)
  }

  function FinitSubPacketOf(r: CharacterRelation, isConnected: int -> bool): FinitSubPacket
  {
    FinitSubPacket(r.RelatedCharacterId, r.RelationType, isConnected(r.RelatedCharacterId), r.CharacterName)
  }

  /** The blacklist entries for the relations `rs`, in the order of `rs`. */
  function BlinitSubPackets(rs: seq<CharacterRelation>, ownId: int): seq<BlinitSubPacket>
  {
    if rs == [] then []
    else
      var last := rs[|rs| - 1];
      BlinitSubPackets(rs[..|rs| - 1], ownId) + (if IsBlinitEntry(last, ownId) then [BlinitSubPacketOf(last)] else [])
  }

  /** The friend entries for the relations `rs`, in the order of `rs`. */
  function FinitSubPackets(rs: seq<CharacterRelation>, ownId: int, isConnected: int -> bool): seq<FinitSubPacket>
  {
    if rs == [] then []
    else
      var last := rs[|rs| - 1];
      FinitSubPackets(rs[..|rs| - 1], ownId, isConnected)
        + (if IsFinitEntry(last, ownId) then [FinitSubPacketOf(last, isConnected)] else [])
  }

  /** A `blinit` packet lists exactly the blacklist entries of the relations,
      except one pointing at the character itself. */
  lemma {:induction false} BlinitMembership(rs: seq<CharacterRelation>, ownId: int, x: BlinitSubPacket)
    ensures x in BlinitSubPackets(rs, ownId) <==> exists r :: r in rs && IsBlinitEntry(r, ownId) && x == BlinitSubPacketOf(r)
  {
    if rs != [] {
      var init, last := rs[..|rs| - 1], rs[|rs| - 1];
      assert rs == init + [last];
      BlinitMembership(init, ownId, x);
      if x in BlinitSubPackets(rs, ownId) && x !in BlinitSubPackets(init, ownId) {
        assert IsBlinitEntry(last, ownId) && x == BlinitSubPacketOf(last);
      }
    }
  }

  /** A `blinit` packet keeps the iteration order: the entries of earlier
      relations come before those of later ones. */
  lemma {:induction false} BlinitOrder(a: seq<CharacterRelation>, b: seq<CharacterRelation>, ownId: int)
    ensures BlinitSubPackets(a + b, ownId) == BlinitSubPackets(a, ownId) + BlinitSubPackets(b, ownId)
  {
    if b == [] {
      assert a + b == a;
    } else {
      var init, last := b[..|b| - 1], b[|b| - 1];
      assert (a + b)[..|a + b| - 1] == a + init;
      BlinitOrder(a, init, ownId);
    }
  }

  /** A `finit` packet lists exactly the Friend and Spouse relations, except
      one pointing at the character itself. */
  lemma {:induction false} FinitMembership(rs: seq<CharacterRelation>, ownId: int, isConnected: int -> bool, x: FinitSubPacket)
    ensures x in FinitSubPackets(rs, ownId, isConnected)
        <==> exists r :: r in rs && IsFinitEntry(r, ownId) && x == FinitSubPacketOf(r, isConnected)
  {
    if rs != [] {
      var init, last := rs[..|rs| - 1], rs[|rs| - 1];
      assert rs == init + [last];
      FinitMembership(init, ownId, isConnected, x);
      if x in FinitSubPackets(rs, ownId, isConnected) && x !in FinitSubPackets(init, ownId, isConnected) {
        assert IsFinitEntry(last, ownId) && x == FinitSubPacketOf(last, isConnected);
      }
    }
  }

  /** A `finit` packet keeps the iteration order. */
  lemma {:induction false} FinitOrder(a: seq<CharacterRelation>, b: seq<CharacterRelation>, ownId: int, isConnected: int -> bool)
    ensures FinitSubPackets(a + b, ownId, isConnected)
         == FinitSubPackets(a, ownId, isConnected) + FinitSubPackets(b, ownId, isConnected)
  {
    if b == [] {
      assert a + b == a;
    } else {
      var init := b[..|b| - 1];
      assert (a + b)[..|a + b| - 1] == a + init;
      FinitOrder(a, init, ownId, isConnected);
    }
  }

  // ---------------------------------------------------------------------
  // The character object
  // ---------------------------------------------------------------------

  class Character {
    const CharacterId: int
    var PositionX: short
    var PositionY: short
    /** Dignity is fractional; `GetDignityIco` compares it unrounded. */
    var Dignity: real
    var Reput: int
    /** The stored speed (`_speed`). */
    var speed: byte
    var LastSpeedChange: int
    var CharacterRelations: Relations
    /** Item stacks by id. */
    var Inventory: map<Guid, ItemInstance>
    var InExchange: bool
    var InShop: bool
    var GroupRequestBlocked: bool
    const ExchangeInfo: ExchangeInfoService
    /** Every packet sent to this character's session, oldest first. */
    var Outbox: seq<Packet>

    ghost predicate Valid()
      reads this
    {
      KeyedById(CharacterRelations)
    }

    constructor (characterId: int, positionX: short, positionY: short, dignity: real, reput: int)
      ensures Valid()
      ensures CharacterId == characterId && PositionX == positionX && PositionY == positionY
      ensures Dignity == dignity && Reput == reput && speed == 0
      ensures CharacterRelations == map[] && Inventory == map[] && Outbox == []
      ensures !InExchange && !InShop && !GroupRequestBlocked
      ensures fresh(ExchangeInfo)
      ensures ExchangeInfo.ExchangeData == DefaultExchangeData && ExchangeInfo.ExchangeRequests == map[]
    {
      CharacterId := characterId;
      PositionX, PositionY := positionX, positionY;
      Dignity, Reput := dignity, reput;
      speed := 0;
      LastSpeedChange := 0;
      CharacterRelations := map[];
      Inventory := map[];
      InExchange, InShop, GroupRequestBlocked := false, false, false;
      ExchangeInfo := new ExchangeInfoService();
      Outbox := [];
    }

    /** The `VisualId` of a character is its `CharacterId`. */
    function VisualId(): int
    {
      CharacterId
    }

    /** `InExchangeOrShop`, assumed to mean "in an exchange or running a shop". */
    predicate InExchangeOrShop()
      reads this
      ensures InExchange ==> InExchangeOrShop()
      ensures InShop ==> InExchangeOrShop()
    {
      InExchange || InShop
    }

    /** The `Speed` getter (the buff bonus is always 0): never above 59, and
        the stored speed whenever that is within the cap. */
    function Speed(): (r: byte)
      reads this
      ensures r <= MaxSpeed
      ensures speed <= MaxSpeed ==> r == speed
      ensures speed > MaxSpeed ==> r == MaxSpeed
    {
      var bonusSpeed := 0;
      if speed + bonusSpeed > MaxSpeed as int then MaxSpeed else speed + bonusSpeed
    }

    /** The `Speed` setter: stores the value cut down to 59 and records the
        time of the change; reading the speed back gives the stored value. */
    method SetSpeed(value: byte, now: int)
      modifies this`speed, this`LastSpeedChange
      ensures speed == (if value > MaxSpeed then MaxSpeed else value)
      ensures Speed() == speed
      ensures LastSpeedChange == now
    {
      LastSpeedChange := now;
      speed := if value > MaxSpeed then MaxSpeed else value;
    }

    /** `GetDignityIco`: the icon of the dignity bracket the character is in,
        icon 1 above -100 and icon 6 at -800 or below. */
    method GetDignityIco() returns (icoDignity: int)
      ensures InDignityBracket(Dignity, icoDignity)
      ensures Dignity > -100.0 ==> icoDignity == 1
      ensures Dignity <= -800.0 ==> icoDignity == 6
    {
      icoDignity := 1;
      if Dignity <= -100.0 {
        icoDignity := 2;
      }
      if Dignity <= -200.0 {
        icoDignity := 3;
      }
      if Dignity <= -400.0 {
        icoDignity := 4;
      }
      if Dignity <= -600.0 {
        icoDignity := 5;
      }
      if Dignity <= -800.0 {
        icoDignity := 6;
      }
    }

    /** `GenerateBlinit`, visiting the relations in the iteration order
        `order`. */
    method GenerateBlinit(order: seq<int>) returns (p: Packet)
      requires IsEnumeration(order, CharacterRelations.Keys)
      ensures p == Blinit(BlinitSubPackets(InOrder(CharacterRelations, order), CharacterId))
    {
      ghost var rs := InOrder(CharacterRelations, order);
      var subpackets: seq<BlinitSubPacket> := [];
      for i := 0 to |order|
        invariant subpackets == BlinitSubPackets(rs[..i], CharacterId)
      {
        assert rs[..i + 1][..i] == rs[..i];
        var relation := CharacterRelations[order[i]];
        if relation.RelationType != Blocked {
          continue;
        }
        if relation.RelatedCharacterId == CharacterId {
          continue;
        }
        subpackets := subpackets + [BlinitSubPacket(relation.RelatedCharacterId, relation.CharacterName)];
      }
      assert rs[..|order|] == rs;
      p := Blinit(subpackets);
    }

    /** `GenerateFinit`, visiting the relations in the iteration order
        `order`; `isConnected` answers whether a character is online. */
    method GenerateFinit(order: seq<int>, isConnected: int -> bool) returns (p: Packet)
      requires IsEnumeration(order, CharacterRelations.Keys)
      ensures p == Finit(FinitSubPackets(InOrder(CharacterRelations, order), CharacterId, isConnected))
    {
      ghost var rs := InOrder(CharacterRelations, order);
      var subpackets: seq<FinitSubPacket> := [];
      for i := 0 to |order|
        invariant subpackets == FinitSubPackets(rs[..i], CharacterId, isConnected)
      {
        assert rs[..i + 1][..i] == rs[..i];
        var relation := CharacterRelations[order[i]];
        if relation.RelationType != Friend && relation.RelationType != Spouse {
          continue;
        }
        if relation.RelatedCharacterId == CharacterId {
          continue;
        }
        subpackets := subpackets + [FinitSubPacket(relation.RelatedCharacterId, relation.RelationType,
                                                   isConnected(relation.RelatedCharacterId), relation.CharacterName)];
      }
      assert rs[..|order|] == rs;
      p := Finit(subpackets);
    }

    /** `DeleteBlackList`: removes the first relation (in `order`) that
        blacklists `characterId` and sends the new blacklist; when there is
        none, the relations stay as they are and CANT_FIND_CHARACTER is sent. */
    method DeleteBlackList(characterId: int, order: seq<int>)
      requires Valid()
      requires IsEnumeration(order, CharacterRelations.Keys)
      modifies this`CharacterRelations, this`Outbox
      ensures Valid()
      ensures FindBlocked(old(CharacterRelations), order, characterId).None? ==>
        && CharacterRelations == old(CharacterRelations)
        && Outbox == old(Outbox) + [Message(Info, CANT_FIND_CHARACTER)]
      ensures FindBlocked(old(CharacterRelations), order, characterId).Some? ==>
        var removed := FindBlocked(old(CharacterRelations), order, characterId).value.CharacterRelationId;
        && removed in old(CharacterRelations)
        && CharacterRelations == old(CharacterRelations) - {removed}
        && IsEnumeration(RemoveKey(order, removed), CharacterRelations.Keys)
        && |CharacterRelations| == |old(CharacterRelations)| - 1
        && Outbox == old(Outbox) + [Blinit(BlinitSubPackets(InOrder(CharacterRelations, RemoveKey(order, removed)), CharacterId))]
    {
      var relation := FindBlocked(CharacterRelations, order, characterId);
      if relation.None? {
        Outbox := Outbox + [Message(Info, CANT_FIND_CHARACTER)];
        return;
      }
      var removed := relation.value.CharacterRelationId;
      ghost var i :| 0 <= i < |order| && CharacterRelations[order[i]] == relation.value;
      assert removed == order[i];
      CharacterRelations := CharacterRelations - {removed};
      RemoveKeyEnumerates(order, old(CharacterRelations).Keys, removed);
      var blinit := GenerateBlinit(RemoveKey(order, removed));
      Outbox := Outbox + [blinit];
    }

    /** `AddRelation`: stores a new relation from this character to
        `characterId` under the relation's id `relationId` (replacing any
        relation stored there), naming the other character when it is online,
        then sends the blacklist for a Blocked relation and the friend list
        otherwise. `order` is the iteration order of the updated relations. */
    method AddRelation(characterId: int, relationType: CharacterRelationType, relationId: int,
                       onlineNames: map<int, string>, order: seq<int>, isConnected: int -> bool)
      requires Valid()
      requires IsEnumeration(order, CharacterRelations.Keys + {relationId})
      modifies this`CharacterRelations, this`Outbox
      ensures Valid()
      ensures CharacterRelations == old(CharacterRelations)[relationId := CharacterRelation(
        relationId, CharacterId, characterId, relationType,
        if characterId in onlineNames then Some(onlineNames[characterId]) else None)]
      ensures IsRelatedToCharacter(CharacterRelations, CharacterId, characterId, relationType)
      ensures relationType == Blocked ==>
        Outbox == old(Outbox) + [Blinit(BlinitSubPackets(InOrder(CharacterRelations, order), CharacterId))]
      ensures relationType != Blocked ==>
        Outbox == old(Outbox) + [Finit(FinitSubPackets(InOrder(CharacterRelations, order), CharacterId, isConnected))]
    {
      var name := if characterId in onlineNames then Some(onlineNames[characterId]) else None;
      var relation := CharacterRelation(relationId, CharacterId, characterId, relationType, name);
      CharacterRelations := CharacterRelations[relation.CharacterRelationId := relation];
      assert CharacterRelations[relationId] == relation;

      if relationType == Blocked {
        var blinit := GenerateBlinit(order);
        Outbox := Outbox + [blinit];
        return;
      }

      var finit := GenerateFinit(order, isConnected);
      Outbox := Outbox + [finit];
    }
  }
}
