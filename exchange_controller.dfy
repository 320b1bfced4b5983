/** The exchange (trade) request handler. A `req_exc` packet from a session
    carries one of five request types; the handler looks up the characters
    involved in the Broadcaster's directory of online characters, checks
    their interaction flags and updates the flags and exchange holders of
    the session's character and of its counterpart.

    The handler is modelled twice: `RequestExchange` works on the character
    objects as the server does, and `RequestExchangeStep` is the same state
    machine on a value snapshot of the online characters; the method is
    proved to have exactly the effect of the step function, and the
    properties of the exchange protocol are proved as lemmas about the step
    function. */
module ExchangePacketController {
  import opened Common
  import opened Packets
  import opened ExchangeInfo
  import opened Characters

  // =====================================================================
  // The state machine on values
  // =====================================================================

  /** What the handler reads or writes of one character. */
  datatype CharacterView = CharacterView(
    InExchange: bool,
    InShop: bool,
    GroupRequestBlocked: bool,
    Relations: Relations,
    ExchangeData: ExchangeData,
    ExchangeRequests: map<Guid, int>,
    Outbox: seq<Packet>)

  /** The online characters, by VisualId. */
  type WorldView = map<int, CharacterView>

  /** The `ArgumentOutOfRangeException` thrown for an unknown request type. */
  datatype ExchangeError = ArgumentOutOfRange

  function Send(v: CharacterView, p: Packet): CharacterView
  {
    v.(Outbox := v.Outbox + [p])
  }

  /** The Broadcaster's lookup of an online character by VisualId. */
  function Resolve(w: WorldView, visualId: Option<int>): Option<int>
  {
    if visualId.Some? && visualId.value in w then visualId else None
  }

  function InExchangeOrShop(v: CharacterView): bool
  {
    v.InExchange || v.InShop
  }

  /** The yes/no question sent to the target of a proposal: "yes" accepts
      (a `List` request naming the requester), "no" declines. */
  function ProposalDialog(requester: int): Packet
  {
    Dlg(ExchangeRequestPacket(List, Some(requester)),
        ExchangeRequestPacket(Declined, Some(requester)),
        INCOMING_EXCHANGE)
  }

  datatype RequestVerdict = Reject(Style: MessageStyle, Key: LanguageKey) | Accept

  /** The guards of a `Requested` request, checked in the handler's order.
      Because `InExchangeOrShop` already covers `InShop`, the HAS_SHOP_OPENED
      rejection can never be the outcome. */
  function RequestedVerdict(requesterInExchange: bool, requesterInShop: bool,
                            targetInExchange: bool, targetInShop: bool,
                            targetGroupRequestBlocked: bool, requesterBlocksTarget: bool): (v: RequestVerdict)
    ensures v.Accept? <==> !requesterInExchange && !requesterInShop && !targetInExchange && !targetInShop
                           && !targetGroupRequestBlocked && !requesterBlocksTarget
    ensures v == Reject(MsgWhite, ALREADY_EXCHANGE)
        <==> requesterInExchange || requesterInShop || targetInExchange || targetInShop
    ensures v == Reject(SayPurple, EXCHANGE_BLOCKED)
        <==> !(requesterInExchange || requesterInShop || targetInExchange || targetInShop) && targetGroupRequestBlocked
    ensures v == Reject(Info, BLACKLIST_BLOCKED)
        <==> !(requesterInExchange || requesterInShop || targetInExchange || targetInShop)
             && !targetGroupRequestBlocked && requesterBlocksTarget
    ensures v != Reject(MsgWhite, HAS_SHOP_OPENED)
  {
    if (targetInExchange || targetInShop) || (requesterInExchange || requesterInShop) then Reject(MsgWhite, ALREADY_EXCHANGE)
    else if targetGroupRequestBlocked then Reject(SayPurple, EXCHANGE_BLOCKED)
    else if requesterBlocksTarget then Reject(Info, BLACKLIST_BLOCKED)
    else if requesterInShop || targetInShop then Reject(MsgWhite, HAS_SHOP_OPENED)
    else Accept
  }

  /** A `Requested` request: it only sends messages and files a proposal,
      so nobody enters an exchange or gets a partner. */
  function RequestedStep(w: WorldView, self: int, target: Option<int>, requestId: Guid): (r: WorldView)
    requires self in w && (target.Some? ==> target.value in w)
    ensures r.Keys == w.Keys
    ensures forall id :: id in r ==> r[id].InExchange == w[id].InExchange && r[id].ExchangeData == w[id].ExchangeData
  {
    if target.None? then w
    else
      var tid := target.value;
      var verdict := RequestedVerdict(w[self].InExchange, w[self].InShop, w[tid].InExchange, w[tid].InShop,
                                      w[tid].GroupRequestBlocked, IsRelatedToCharacter(w[self].Relations, self, tid, Blocked));
      if verdict.Reject? then w[self := Send(w[self], Message(verdict.Style, verdict.Key))]
      else
        var w1 := w[self := Send(w[self], Message(Modal, YOU_ASK_FOR_EXCHANGE))];
        var w2 := w1[self := w1[self].(ExchangeRequests := TryAdd(w1[self].ExchangeRequests, requestId, tid))];
        w2[tid := Send(w2[tid], ProposalDialog(self))]
  }

  /** A `List` request (accepting a proposal): it neither consults nor
      removes filed proposals, and never changes a shop flag. */
  function ListStep(w: WorldView, self: int, target: Option<int>): (r: WorldView)
    requires self in w && (target.Some? ==> target.value in w)
    ensures r.Keys == w.Keys
    ensures forall id :: id in r ==> r[id].ExchangeRequests == w[id].ExchangeRequests && r[id].InShop == w[id].InShop
  {
    if target.None? || InExchangeOrShop(w[target.value]) then w
    else
      var tid := target.value;
      var w1 := w[self := w[self].(ExchangeData := w[self].ExchangeData.(TargetVisualId := tid))];
      var w2 := w1[tid := w1[tid].(ExchangeData := w1[tid].ExchangeData.(TargetVisualId := self))];
      var w3 := w2[self := w2[self].(InExchange := true)];
      var w4 := w3[tid := w3[tid].(InExchange := true)];
      var w5 := w4[self := Send(w4[self], ExcList(1, tid, -1))];
      w5[tid := Send(w5[tid], ExcList(1, self, -1))]
  }

  /** A `Declined` request: only outboxes change. */
  function DeclinedStep(w: WorldView, self: int, target: Option<int>): (r: WorldView)
    requires self in w && (target.Some? ==> target.value in w)
    ensures r.Keys == w.Keys
    ensures forall id :: id in r ==> r[id].(Outbox := w[id].Outbox) == w[id]
  {
    var w1 := w[self := Send(w[self], Message(SayYellow, EXCHANGE_REFUSED))];
    if target.None? then w1
    else w1[target.value := Send(w1[target.value], Message(SayYellow, EXCHANGE_REFUSED))]
  }

  /** Leaving an exchange: `InExchange = false` and a fresh `ExchangeData`. */
  function Reset(v: CharacterView): CharacterView
  {
    v.(InExchange := false, ExchangeData := DefaultExchangeData)
  }

  /** The partner a `Confirmed` or `Cancelled` request looks up. */
  function Partner(w: WorldView, self: int): Option<int>
    requires self in w
  {
    Resolve(w, Some(w[self].ExchangeData.TargetVisualId))
  }

  /** A `Cancelled` request: the sender always ends outside any exchange
      with default exchange data. */
  function CancelledStep(w: WorldView, self: int): (r: WorldView)
    requires self in w
    ensures r.Keys == w.Keys
    ensures !r[self].InExchange && r[self].ExchangeData == DefaultExchangeData
  {
    var partner := Partner(w, self);
    var w1 := if partner.None? then w else w[partner.value := Send(Reset(w[partner.value]), ExcClose(0))];
    w1[self := Send(Reset(w1[self]), ExcClose(0))]
  }

  /** `RequestExchange` on a snapshot of the online characters: the request
      of the character `self`. `requestId` is the `Guid.NewGuid()` a
      `Requested` request files its proposal under. A `Confirmed` request
      only looks its partner up (and logs when it is gone), so it changes
      nothing. */
  function RequestExchangeStep(w: WorldView, self: int, packet: ExchangeRequestPacket, requestId: Guid)
    : (r: Result<WorldView, ExchangeError>)
    requires self in w
    ensures r.Err? <==> packet.RequestType.Unknown?
    ensures r.Ok? ==> r.value.Keys == w.Keys
  {
    var target := Resolve(w, packet.VisualId);
    match packet.RequestType
    case Requested => Ok(RequestedStep(w, self, target, requestId))
    case List => Ok(ListStep(w, self, target))
    case Declined => Ok(DeclinedStep(w, self, target))
    case Confirmed => Ok(w)
    case Cancelled => Ok(CancelledStep(w, self))
    case Unknown(_) => Err(ArgumentOutOfRange)
  }

  /** The characters a request may touch: the sender, the character the
      packet names and, for `Cancelled`, the stored partner. */
  function Parties(w: WorldView, self: int, packet: ExchangeRequestPacket): set<int>
    requires self in w
  {
    {self} + TargetSet(if packet.RequestType.Cancelled? then Partner(w, self) else Resolve(w, packet.VisualId))
  }

  // ---------------------------------------------------------------------
  // Properties of the state machine
  // ---------------------------------------------------------------------

  /** `r` has the characters of `w`, differs from `w` only at `parties`,
      and agrees with `w` on everyone's shop flag, request blocking and
      relations. */
  predicate Confined(w: WorldView, r: WorldView, parties: set<int>)
  {
    && r.Keys == w.Keys
    && (forall id :: id in w && id !in parties ==> r[id] == w[id])
    && (forall id :: id in w ==>
          && r[id].InShop == w[id].InShop
          && r[id].GroupRequestBlocked == w[id].GroupRequestBlocked
          && r[id].Relations == w[id].Relations)
  }

  function TargetSet(target: Option<int>): set<int>
  {
    if target.Some? then {target.value} else {}
  }

  /** Updating one more character, without touching its shop flag, request
      blocking or relations, adds it to the parties. */
  lemma ConfinedUpdate(w: WorldView, r: WorldView, parties: set<int>, k: int, v: CharacterView)
    requires Confined(w, r, parties) && k in w
    requires v.InShop == w[k].InShop && v.GroupRequestBlocked == w[k].GroupRequestBlocked && v.Relations == w[k].Relations
    ensures Confined(w, r[k := v], parties + {k})
  {
  }

  lemma RequestedConfined(w: WorldView, self: int, target: Option<int>, requestId: Guid)
    requires self in w && (target.Some? ==> target.value in w)
    ensures Confined(w, RequestedStep(w, self, target, requestId), {self} + TargetSet(target))
  {
    if target.Some? {
      var tid := target.value;
      var verdict := RequestedVerdict(w[self].InExchange, w[self].InShop, w[tid].InExchange, w[tid].InShop,
                                      w[tid].GroupRequestBlocked, IsRelatedToCharacter(w[self].Relations, self, tid, Blocked));
      if verdict.Accept? {
        var w1 := w[self := Send(w[self], Message(Modal, YOU_ASK_FOR_EXCHANGE))];
        var w2 := w1[self := w1[self].(ExchangeRequests := TryAdd(w1[self].ExchangeRequests, requestId, tid))];
        assert Confined(w, w2, {self});
        ConfinedUpdate(w, w2, {self}, tid, Send(w2[tid], ProposalDialog(self)));
      } else {
        ConfinedUpdate(w, w, {}, self, Send(w[self], Message(verdict.Style, verdict.Key)));
      }
    }
  }

  lemma ListConfined(w: WorldView, self: int, target: Option<int>)
    requires self in w && (target.Some? ==> target.value in w)
    ensures Confined(w, ListStep(w, self, target), {self} + TargetSet(target))
  {
  }

  lemma DeclinedConfined(w: WorldView, self: int, target: Option<int>)
    requires self in w && (target.Some? ==> target.value in w)
    ensures Confined(w, DeclinedStep(w, self, target), {self} + TargetSet(target))
  {
  }

  lemma CancelledConfined(w: WorldView, self: int)
    requires self in w
    ensures Confined(w, CancelledStep(w, self), {self} + TargetSet(Partner(w, self)))
  {
  }

  /** Only an unknown request type fails; every other request keeps the set
      of online characters, leaves every character outside its parties as
      it was, and never changes anyone's shop flag, request blocking or
      relations. */
  lemma {:induction false} StepFrame(w: WorldView, self: int, packet: ExchangeRequestPacket, requestId: Guid)
    requires self in w
    ensures RequestExchangeStep(w, self, packet, requestId).Err? <==> packet.RequestType.Unknown?
    ensures RequestExchangeStep(w, self, packet, requestId).Ok? ==>
      Confined(w, RequestExchangeStep(w, self, packet, requestId).value, Parties(w, self, packet))
  {
    var target := Resolve(w, packet.VisualId);
    match packet.RequestType {
      case Requested => RequestedConfined(w, self, target, requestId);
      case List => ListConfined(w, self, target);
      case Declined => DeclinedConfined(w, self, target);
      case Confirmed =>
      case Cancelled => CancelledConfined(w, self);
      case Unknown(_) =>
    }
  }

  /** A `Requested` request naming no online character does nothing. */
  lemma RequestedUnresolvedDoesNothing(w: WorldView, self: int, visualId: Option<int>, requestId: Guid)
    requires self in w && Resolve(w, visualId).None?
    ensures RequestExchangeStep(w, self, ExchangeRequestPacket(Requested, visualId), requestId) == Ok(w)
  {
  }

  /** A rejected `Requested` request sends its sender exactly one message,
      the one its first failing guard names, and changes nothing else. */
  lemma RequestedRejected(w: WorldView, self: int, tid: int, requestId: Guid)
    requires self in w && tid in w
    requires RequestedVerdict(w[self].InExchange, w[self].InShop, w[tid].InExchange, w[tid].InShop,
                              w[tid].GroupRequestBlocked, IsRelatedToCharacter(w[self].Relations, self, tid, Blocked)).Reject?
    ensures var verdict := RequestedVerdict(w[self].InExchange, w[self].InShop, w[tid].InExchange, w[tid].InShop,
                                            w[tid].GroupRequestBlocked, IsRelatedToCharacter(w[self].Relations, self, tid, Blocked));
      var r := RequestExchangeStep(w, self, ExchangeRequestPacket(Requested, Some(tid)), requestId).value;
      && r[self] == w[self].(Outbox := w[self].Outbox + [Message(verdict.Style, verdict.Key)])
      && (forall id :: id in w && id != self ==> r[id] == w[id])
  {
  }

  /** An accepted `Requested` request files exactly one new proposal (when
      its id is new) from the sender to the target, tells the sender it
      asked, and sends the target the yes/no question; no flag changes. */
  lemma RequestedAccepted(w: WorldView, self: int, tid: int, requestId: Guid)
    requires self in w && tid in w
    requires RequestedVerdict(w[self].InExchange, w[self].InShop, w[tid].InExchange, w[tid].InShop,
                              w[tid].GroupRequestBlocked, IsRelatedToCharacter(w[self].Relations, self, tid, Blocked)).Accept?
    ensures var r := RequestExchangeStep(w, self, ExchangeRequestPacket(Requested, Some(tid)), requestId).value;
      && r[self].ExchangeRequests == TryAdd(w[self].ExchangeRequests, requestId, tid)
      && (requestId !in w[self].ExchangeRequests ==>
            r[self].ExchangeRequests == w[self].ExchangeRequests[requestId := tid])
      && r[self].InExchange == w[self].InExchange && r[tid].InExchange == w[tid].InExchange
      && r[self].ExchangeData == w[self].ExchangeData && r[tid].ExchangeData == w[tid].ExchangeData
      && (tid != self ==>
            && r[self].Outbox == w[self].Outbox + [Message(Modal, YOU_ASK_FOR_EXCHANGE)]
            && r[tid].Outbox == w[tid].Outbox + [ProposalDialog(self)]
            && r[tid].ExchangeRequests == w[tid].ExchangeRequests)
      && (tid == self ==>
            r[self].Outbox == w[self].Outbox + [Message(Modal, YOU_ASK_FOR_EXCHANGE), ProposalDialog(self)])
  {
    assert RequestExchangeStep(w, self, ExchangeRequestPacket(Requested, Some(tid)), requestId)
        == Ok(RequestedStep(w, self, Some(tid), requestId));
  }

  /** `List` does nothing when the named character is offline or already in
      an exchange or a shop. */
  lemma ListRefused(w: WorldView, self: int, visualId: Option<int>, requestId: Guid)
    requires self in w
    requires Resolve(w, visualId).None? || InExchangeOrShop(w[visualId.value])
    ensures RequestExchangeStep(w, self, ExchangeRequestPacket(List, visualId), requestId) == Ok(w)
  {
  }

  /** Otherwise `List` pairs the two characters symmetrically, puts both in
      the exchange and sends each one `exc_list` packet with unset gold (-1)
      naming the other. */
  lemma ListPairs(w: WorldView, self: int, tid: int, requestId: Guid)
    requires self in w && tid in w && !InExchangeOrShop(w[tid])
    ensures var r := RequestExchangeStep(w, self, ExchangeRequestPacket(List, Some(tid)), requestId).value;
      && r[self].ExchangeData.TargetVisualId == tid && r[tid].ExchangeData.TargetVisualId == self
      && r[self].InExchange && r[tid].InExchange
      && r[self].ExchangeRequests == w[self].ExchangeRequests && r[tid].ExchangeRequests == w[tid].ExchangeRequests
      && (tid != self ==>
            && r[self].Outbox == w[self].Outbox + [ExcList(1, tid, -1)]
            && r[tid].Outbox == w[tid].Outbox + [ExcList(1, self, -1)])
      && (tid == self ==> r[self].Outbox == w[self].Outbox + [ExcList(1, self, -1), ExcList(1, self, -1)])
  {
  }

  /** `List` checks neither the accepting character's own flags nor that a
      proposal is pending: a character running a shop that sends `List` for
      an idle character it never proposed to ends up both in an exchange
      and in its shop. */
  lemma ListIgnoresAcceptorAndProposal(idle: CharacterView, shopKeeper: CharacterView, requestId: Guid)
    requires !idle.InExchange && !idle.InShop && idle.ExchangeRequests == map[]
    requires shopKeeper.InShop
    ensures var w := map[1 := shopKeeper, 2 := idle];
      var r := RequestExchangeStep(w, 1, ExchangeRequestPacket(List, Some(2)), requestId).value;
      && r[1].InExchange && r[1].InShop
      && r[1].ExchangeData.TargetVisualId == 2 && r[2].ExchangeData.TargetVisualId == 1
  {
  }

  /** `Declined` and `Confirmed` change no character's state: `Declined`
      only tells the sender and, when online, the named character that the
      exchange was refused; `Confirmed` does nothing at all. */
  lemma DeclinedAndConfirmedKeepState(w: WorldView, self: int, visualId: Option<int>, requestId: Guid)
    requires self in w
    ensures RequestExchangeStep(w, self, ExchangeRequestPacket(Confirmed, visualId), requestId) == Ok(w)
    ensures var r := RequestExchangeStep(w, self, ExchangeRequestPacket(Declined, visualId), requestId).value;
      var refused := Message(SayYellow, EXCHANGE_REFUSED);
      && r.Keys == w.Keys
      && (forall id :: id in w ==> r[id] == w[id].(Outbox := r[id].Outbox))
      && (Resolve(w, visualId) != Some(self) ==> r[self].Outbox == w[self].Outbox + [refused])
      && (Resolve(w, visualId).Some? && visualId.value != self ==>
            r[visualId.value].Outbox == w[visualId.value].Outbox + [refused])
      && (Resolve(w, visualId) == Some(self) ==> r[self].Outbox == w[self].Outbox + [refused, refused])
  {
  }

  /** `Cancelled` always takes the sender out of the exchange, resets its
      exchange data and sends it `exc_close`; the stored partner gets the
      same when it is online. What happens to the sender does not depend on
      whether the partner is online. */
  lemma CancelledResets(w: WorldView, self: int, visualId: Option<int>, requestId: Guid)
    requires self in w
    ensures var r := RequestExchangeStep(w, self, ExchangeRequestPacket(Cancelled, visualId), requestId).value;
      var pid := w[self].ExchangeData.TargetVisualId;
      && !r[self].InExchange && r[self].ExchangeData == DefaultExchangeData
      && r[self].ExchangeRequests == w[self].ExchangeRequests
      && (pid != self ==> r[self].Outbox == w[self].Outbox + [ExcClose(0)])
      && (pid == self ==> r[self].Outbox == w[self].Outbox + [ExcClose(0), ExcClose(0)])
      && (pid in w && pid != self ==>
            && !r[pid].InExchange && r[pid].ExchangeData == DefaultExchangeData
            && r[pid].Outbox == w[pid].Outbox + [ExcClose(0)]
            && r[pid].ExchangeRequests == w[pid].ExchangeRequests)
  {
  }

  /** A whole exchange between two idle characters: A proposes, B accepts
      from the dialog, A cancels. B gets the question, both are paired and
      get `exc_list` with unset gold, and after the cancel both are idle
      again with reset exchange data and an `exc_close`. */
  lemma {:induction false} ProposeAcceptCancel(a: int, b: int, va: CharacterView, vb: CharacterView, requestId: Guid)
    requires a != b
    requires !va.InExchange && !va.InShop && !vb.InExchange && !vb.InShop && !vb.GroupRequestBlocked
    requires !IsRelatedToCharacter(va.Relations, a, b, Blocked)
    ensures var w0 := map[a := va, b := vb];
      var w1 := RequestExchangeStep(w0, a, ExchangeRequestPacket(Requested, Some(b)), requestId).value;
      var w2 := RequestExchangeStep(w1, b, ExchangeRequestPacket(List, Some(a)), requestId).value;
      var w3 := RequestExchangeStep(w2, a, ExchangeRequestPacket(Cancelled, None), requestId).value;
      && w1[b].Outbox == vb.Outbox + [ProposalDialog(a)]
      && w2[a].InExchange && w2[b].InExchange
      && w2[a].Outbox == w1[a].Outbox + [ExcList(1, b, -1)]
      && w2[b].Outbox == w1[b].Outbox + [ExcList(1, a, -1)]
      && !w3[a].InExchange && !w3[b].InExchange
      && w3[a].ExchangeData == DefaultExchangeData && w3[b].ExchangeData == DefaultExchangeData
      && w3[a].Outbox == w2[a].Outbox + [ExcClose(0)] && w3[b].Outbox == w2[b].Outbox + [ExcClose(0)]
  {
    var w0 := map[a := va, b := vb];
    RequestedAccepted(w0, a, b, requestId);
    var w1 := RequestExchangeStep(w0, a, ExchangeRequestPacket(Requested, Some(b)), requestId).value;
    StepFrame(w0, a, ExchangeRequestPacket(Requested, Some(b)), requestId);
    ListPairs(w1, b, a, requestId);
    var w2 := RequestExchangeStep(w1, b, ExchangeRequestPacket(List, Some(a)), requestId).value;
    StepFrame(w1, b, ExchangeRequestPacket(List, Some(a)), requestId);
    CancelledResets(w2, a, None, requestId);
  }

  // =====================================================================
  // The handler on character objects
  // =====================================================================

  /** The Broadcaster's directory: the online characters by VisualId. */
  type World = map<int, Character>

  /** Each character is listed under its own id and has its own exchange
      holder. */
  predicate WorldValid(world: World)
  {
    && (forall id :: id in world ==> world[id].CharacterId == id)
    && (forall a, b :: a in world && b in world && a != b ==> world[a].ExchangeInfo != world[b].ExchangeInfo)
  }

  function Infos(world: World): set<ExchangeInfoService>
  {
    set c | c in world.Values :: c.ExchangeInfo
  }

  ghost function ViewOf(c: Character): CharacterView
    reads c, c.ExchangeInfo
  {
    CharacterView(c.InExchange, c.InShop, c.GroupRequestBlocked, c.CharacterRelations,
                  c.ExchangeInfo.ExchangeData, c.ExchangeInfo.ExchangeRequests, c.Outbox)
  }

  ghost function Snapshot(world: World): WorldView
    reads world.Values, Infos(world)
  {
    map id | id in world :: ViewOf(world[id])
  }

  /** `c` is the online character with its id. */
  predicate Online(world: World, c: Character)
  {
    c.CharacterId in world && world[c.CharacterId] == c
  }

  function GetCharacter(world: World, visualId: Option<int>): Option<Character>
  {
    if visualId.Some? && visualId.value in world then Some(world[visualId.value]) else None
  }

  /** `SendPacket` to the session of `c`. */
  method SendPacket(world: World, c: Character, p: Packet)
    requires WorldValid(world) && Online(world, c)
    modifies c`Outbox
    ensures Snapshot(world) == old(Snapshot(world))[c.CharacterId := Send(old(Snapshot(world))[c.CharacterId], p)]
  {
    ghost var before := Snapshot(world);
    c.Outbox := c.Outbox + [p];
    forall id | id in world && id != c.CharacterId ensures Snapshot(world)[id] == before[id] {
      assert world[id] != c;
    }
  }

  method SetInExchange(world: World, c: Character, value: bool)
    requires WorldValid(world) && Online(world, c)
    modifies c`InExchange
    ensures Snapshot(world) == old(Snapshot(world))[c.CharacterId := old(Snapshot(world))[c.CharacterId].(InExchange := value)]
  {
    ghost var before := Snapshot(world);
    c.InExchange := value;
    forall id | id in world && id != c.CharacterId ensures Snapshot(world)[id] == before[id] {
      assert world[id] != c;
    }
  }

  /** Records `id` as the exchange partner of `c`. */
  method SetTargetVisualId(world: World, c: Character, id: int)
    requires WorldValid(world) && Online(world, c)
    modifies c.ExchangeInfo`ExchangeData
    ensures var v := old(Snapshot(world))[c.CharacterId];
      Snapshot(world) == old(Snapshot(world))[c.CharacterId := v.(ExchangeData := v.ExchangeData.(TargetVisualId := id))]
  {
    ghost var before := Snapshot(world);
    c.ExchangeInfo.SetTargetVisualId(id);
    forall other | other in world && other != c.CharacterId ensures Snapshot(world)[other] == before[other] {
      assert world[other].ExchangeInfo != c.ExchangeInfo;
    }
  }

  /** Takes `c` out of its exchange, gives it fresh exchange data and
      sends it `exc_close`. */
  method CloseExchange(world: World, c: Character)
    requires WorldValid(world) && Online(world, c)
    modifies c`InExchange, c`Outbox, c.ExchangeInfo`ExchangeData
    ensures Snapshot(world) == old(Snapshot(world))[c.CharacterId := Send(Reset(old(Snapshot(world))[c.CharacterId]), ExcClose(0))]
  {
    ghost var before := Snapshot(world);
    c.InExchange := false;
    c.ExchangeInfo.SetExchangeData(DefaultExchangeData);
    c.Outbox := c.Outbox + [ExcClose(0)];
    forall id | id in world && id != c.CharacterId ensures Snapshot(world)[id] == before[id] {
      assert world[id] != c && world[id].ExchangeInfo != c.ExchangeInfo;
    }
  }

  /** Files the proposal `requestId` to `target` in the table of `c`. */
  method AddExchangeRequest(world: World, c: Character, requestId: Guid, target: int)
    requires WorldValid(world) && Online(world, c)
    modifies c.ExchangeInfo`ExchangeRequests
    ensures var v := old(Snapshot(world))[c.CharacterId];
      Snapshot(world) == old(Snapshot(world))[c.CharacterId := v.(ExchangeRequests := TryAdd(v.ExchangeRequests, requestId, target))]
  {
    ghost var before := Snapshot(world);
    var _ := c.ExchangeInfo.TryAddRequest(requestId, target);
    forall id | id in world && id != c.CharacterId ensures Snapshot(world)[id] == before[id] {
      assert world[id].ExchangeInfo != c.ExchangeInfo;
    }
  }

  /** The VisualId of the character a lookup found. */
  function IdOf(c: Option<Character>): Option<int>
  {
    if c.None? then None else Some(c.value.CharacterId)
  }

  /** The `Requested` case: the guards in order, then the proposal. */
  method RequestedCase(world: World, session: Character, target: Option<Character>, requestId: Guid)
    requires WorldValid(world) && Online(world, session) && (target.Some? ==> Online(world, target.value))
    modifies world.Values`Outbox, Infos(world)`ExchangeRequests
    ensures Snapshot(world) == RequestedStep(old(Snapshot(world)), session.CharacterId, IdOf(target), requestId)
  {
    if target.None? {
      return;
    }
    var t := target.value;
    if t.InExchangeOrShop() || session.InExchangeOrShop() {
      SendPacket(world, session, Message(MsgWhite, ALREADY_EXCHANGE));
      return;
    }
    if t.GroupRequestBlocked {
      SendPacket(world, session, Message(SayPurple, EXCHANGE_BLOCKED));
      return;
    }
    if IsRelatedToCharacter(session.CharacterRelations, session.CharacterId, t.VisualId(), Blocked) {
      SendPacket(world, session, Message(Info, BLACKLIST_BLOCKED));
      return;
    }
    if session.InShop || t.InShop {
      // Here the handler would send HAS_SHOP_OPENED as a white message and
      // return; the first guard already covers shops, so this branch is dead.
      assert false;
    }
    SendPacket(world, session, Message(Modal, YOU_ASK_FOR_EXCHANGE));
    AddExchangeRequest(world, session, requestId, t.VisualId());
    SendPacket(world, t, ProposalDialog(session.VisualId()));
  }

  /** The `List` case: pairing with the character the packet names. */
  method ListCase(world: World, session: Character, target: Option<Character>)
    requires WorldValid(world) && Online(world, session) && (target.Some? ==> Online(world, target.value))
    modifies world.Values`Outbox, world.Values`InExchange, Infos(world)`ExchangeData
    ensures Snapshot(world) == ListStep(old(Snapshot(world)), session.CharacterId, IdOf(target))
  {
    if target.None? || target.value.InExchangeOrShop() {
      return;
    }
    var t := target.value;
    SetTargetVisualId(world, session, t.VisualId());
    SetTargetVisualId(world, t, session.VisualId());
    SetInExchange(world, session, true);
    SetInExchange(world, t, true);
    SendPacket(world, session, ExcList(1, t.VisualId(), -1));
    SendPacket(world, t, ExcList(1, session.CharacterId, -1));
  }

  /** The `Declined` case: both sides are told the exchange was refused. */
  method DeclinedCase(world: World, session: Character, target: Option<Character>)
    requires WorldValid(world) && Online(world, session) && (target.Some? ==> Online(world, target.value))
    modifies world.Values`Outbox
    ensures Snapshot(world) == DeclinedStep(old(Snapshot(world)), session.CharacterId, IdOf(target))
  {
    SendPacket(world, session, Message(SayYellow, EXCHANGE_REFUSED));
    if target.Some? {
      SendPacket(world, target.value, Message(SayYellow, EXCHANGE_REFUSED));
    }
  }

  /** The `Cancelled` case: the stored partner, when online, and then the
      session leave the exchange. */
  method CancelledCase(world: World, session: Character)
    requires WorldValid(world) && Online(world, session)
    modifies world.Values`Outbox, world.Values`InExchange, Infos(world)`ExchangeData
    ensures Snapshot(world) == CancelledStep(old(Snapshot(world)), session.CharacterId)
  {
    ghost var w := Snapshot(world);
    var pid := session.ExchangeInfo.ExchangeData.TargetVisualId;
    var partner := GetCharacter(world, Some(pid));
    assert w.Keys == world.Keys;
    if partner.Some? {
      assert world[pid].CharacterId == pid;
      CloseExchange(world, partner.value);
    }
    CloseExchange(world, session);
  }

  /** `RequestExchange`, for the request `packet` sent by the session whose
      character is `session`; `requestId` stands for `Guid.NewGuid()`. Its
      effect on the online characters is exactly `RequestExchangeStep`; an
      unknown request type is reported as an error and changes nothing. The
      frame shows that only outboxes, `InExchange` flags and exchange holders
      can change. */
  method RequestExchange(world: World, session: Character, packet: ExchangeRequestPacket, requestId: Guid)
    returns (r: Result<(), ExchangeError>)
    requires WorldValid(world) && Online(world, session)
    modifies world.Values`Outbox, world.Values`InExchange, Infos(world)`ExchangeData, Infos(world)`ExchangeRequests
    ensures var step := RequestExchangeStep(old(Snapshot(world)), session.CharacterId, packet, requestId);
      && (r.Err? <==> step.Err?)
      && (step.Err? ==> r.error == step.error && Snapshot(world) == old(Snapshot(world)))
      && (step.Ok? ==> Snapshot(world) == step.value)
  {
    var target := GetCharacter(world, packet.VisualId);
    assert Snapshot(world).Keys == world.Keys;
    if packet.VisualId.Some? && packet.VisualId.value in world {
      assert world[packet.VisualId.value].CharacterId == packet.VisualId.value;
    }
    assert IdOf(target) == Resolve(Snapshot(world), packet.VisualId);
    r := Ok(());
    match packet.RequestType {
      case Requested =>
        RequestedCase(world, session, target, requestId);
      case List =>
        ListCase(world, session, target);
      case Declined =>
        DeclinedCase(world, session, target);
      case Confirmed =>
        // The partner is looked up; when it is gone the handler only logs.
      case Cancelled =>
        CancelledCase(world, session);
      case Unknown(_) =>
        r := Err(ArgumentOutOfRange);
    }
  }
}
