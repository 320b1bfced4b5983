/** The server-to-client messages the modelled handlers send, as records.
    Only what a handler puts into a packet is kept; the text encoding of a
    packet is not part of this model. Localised texts are represented by the
    language key they are looked up from. */
module Packets {
  import opened Common

  /** The `LanguageKey` values the modelled handlers use. */
  datatype LanguageKey =
    | ALREADY_EXCHANGE
    | EXCHANGE_BLOCKED
    | BLACKLIST_BLOCKED
    | HAS_SHOP_OPENED
    | YOU_ASK_FOR_EXCHANGE
    | INCOMING_EXCHANGE
    | EXCHANGE_REFUSED
    | CANT_FIND_CHARACTER

  /** Which kind of text packet carries a message: a white `msg`, a `say`
      line in purple or yellow, an `info` box or a `modal` box. */
  datatype MessageStyle = MsgWhite | SayPurple | SayYellow | Info | Modal

  /** `CharacterRelationType`; the enumeration's remaining values are kept
      apart by their code. */
  datatype CharacterRelationType = Friend | Spouse | Blocked | OtherRelation(code: int)

  /** `RequestExchangeType`; `Unknown` stands for every value outside the
      five the exchange handler knows. */
  datatype RequestExchangeType = Requested | List | Declined | Confirmed | Cancelled | Unknown(code: int)

  /** The client's `req_exc` packet; the id is a nullable `long`. */
  datatype ExchangeRequestPacket = ExchangeRequestPacket(RequestType: RequestExchangeType, VisualId: Option<int>)

  datatype BlinitSubPacket = BlinitSubPacket(RelatedCharacterId: int, CharacterName: Option<string>)

  datatype FinitSubPacket = FinitSubPacket(
    CharacterId: int, RelationType: CharacterRelationType, IsOnline: bool, CharacterName: Option<string>)

  /** A packet sent to one session. */
  datatype Packet =
    | Message(Style: MessageStyle, Key: LanguageKey)
    | Dlg(YesPacket: ExchangeRequestPacket, NoPacket: ExchangeRequestPacket, Question: LanguageKey)
    | ExcList(Unknown: int, VisualId: int, Gold: int)
    | ExcClose(Type: int)
    | Blinit(BlinitSubPackets: seq<BlinitSubPacket>)
    | Finit(FinitSubPackets: seq<FinitSubPacket>)
}
