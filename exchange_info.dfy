/** The per-character holder of exchange state: the current `ExchangeData`
    and the table of exchange proposals this character has sent. */
module ExchangeInfo {
  import opened Common

  /** `ExchangeData`, reduced to the one field the modelled handlers read and
      write: the id of the exchange partner (a `long`, 0 when unset). */
  datatype ExchangeData = ExchangeData(TargetVisualId: int)

  /** The value `new ExchangeData()` produces. */
  const DefaultExchangeData: ExchangeData := ExchangeData(0)

  /** `TryAdd` on a dictionary: adds the entry only when the key is new. */
  function TryAdd(m: map<Guid, int>, k: Guid, v: int): (r: map<Guid, int>)
    ensures r.Keys == m.Keys + {k}
    ensures forall g :: g in m ==> r[g] == m[g]
    ensures k !in m ==> r[k] == v && |r| == |m| + 1
  {
    if k in m then m else m[k := v]
  }

  /** Proposals are keyed by their own id, not by their target: filing a
      second proposal under a new id keeps the first, even when both go to
      the same character, and filing under a used id changes nothing. */
  lemma ProposalsCoexist(m: map<Guid, int>, g1: Guid, g2: Guid, target: int)
    requires g1 != g2 && g1 !in m && g2 !in m
    ensures var r := TryAdd(TryAdd(m, g1, target), g2, target);
      && r == m[g1 := target][g2 := target]
      && |r| == |m| + 2
    ensures TryAdd(TryAdd(m, g1, target), g1, target + 1) == TryAdd(m, g1, target)
  {
  }

  class ExchangeInfoService {
    var ExchangeData: ExchangeData
    /** Proposal id -> the VisualId of the character the proposal was sent to. */
    var ExchangeRequests: map<Guid, int>

    constructor ()
      ensures ExchangeData == DefaultExchangeData
      ensures ExchangeRequests == map[]
    {
      ExchangeData := DefaultExchangeData;
      ExchangeRequests := map[];
    }

    /** The `ExchangeData` setter: installs `data`; the request table is
        outside the frame, so it is left as it was. */
    method SetExchangeData(data: ExchangeData)
      modifies this`ExchangeData
      ensures ExchangeData == data
    {
      ExchangeData := data;
    }

    /** Sets the partner id; the rest of the exchange data is kept. */
    method SetTargetVisualId(id: int)
      modifies this`ExchangeData
      ensures ExchangeData == old(ExchangeData).(TargetVisualId := id)
      ensures ExchangeData.TargetVisualId == id
    {
      ExchangeData := ExchangeData.(TargetVisualId := id);
    }

    /** `ExchangeRequests.TryAdd(id, target)`: adds the proposal when its id
        is new and reports whether it did; an existing entry is never
        overwritten, and every other proposal, to the same target or not,
        stays in the table. */
    method TryAddRequest(id: Guid, target: int) returns (added: bool)
      modifies this`ExchangeRequests
      ensures added <==> id !in old(ExchangeRequests)
      ensures ExchangeRequests == TryAdd(old(ExchangeRequests), id, target)
    {
      added := id !in ExchangeRequests;
      if added {
        ExchangeRequests := ExchangeRequests[id := target];
      }
    }
  }
}
