/**
 * The DU's decoding of the CU's Reset and F1 Setup Failure messages, and the
 * mandatory-IE lookup (F1AP_FIND_PROTOCOLIE_BY_ID with its mandatory flag set) that
 * both use.
 */
module Inbound {
  import opened F1apTypes
  import Outbound

  // ---------------------------------------------------------------------------
  // IE lookup
  // ---------------------------------------------------------------------------

  /** The index of the first IE with `id` at or after `from`, if any. */
  function FirstIeFrom(ies: seq<Ie>, id: IeId, from: nat): (r: Option<nat>)
    requires from <= |ies|
    ensures r.Some? ==> from <= r.value < |ies| && ies[r.value].id == id
    decreases |ies| - from
  {
    if from == |ies| then None
    else if ies[from].id == id then Some(from)
    else FirstIeFrom(ies, id, from + 1)
  }

  /** The search finds an IE iff there is one with that id, and then the first one. */
  lemma {:induction false} FirstIeFromIsFirst(ies: seq<Ie>, id: IeId, from: nat)
    requires from <= |ies|
    ensures FirstIeFrom(ies, id, from).Some? <==> exists k :: from <= k < |ies| && ies[k].id == id
    ensures FirstIeFrom(ies, id, from).Some? ==>
              forall j :: from <= j < FirstIeFrom(ies, id, from).value ==> ies[j].id != id
    decreases |ies| - from
  {
    if from < |ies| && ies[from].id != id {
      FirstIeFromIsFirst(ies, id, from + 1);
    }
  }

  /** The lookup loop of F1AP_FIND_PROTOCOLIE_BY_ID. */
  method FindIe(ies: seq<Ie>, id: IeId) returns (r: Option<nat>)
    ensures r == FirstIeFrom(ies, id, 0)
  {
    for i := 0 to |ies|
      invariant FirstIeFrom(ies, id, 0) == FirstIeFrom(ies, id, i)
    {
      if ies[i].id == id {
        return Some(i);
      }
    }
    return None;
  }

  /** A mandatory IE: the first one with `id`; the lookup aborts when there is none. */
  function MandatoryIe(ies: seq<Ie>, id: IeId): Result<Ie>
  {
    match FirstIeFrom(ies, id, 0)
    case None => Fatal(MandatoryIeMissing(id))
    case Some(k) => Ok(ies[k])
  }

  /** The first IE with `id` is at index k. */
  predicate IsFirstIe(ies: seq<Ie>, id: IeId, k: int)
  {
    0 <= k < |ies| && ies[k].id == id && forall j :: 0 <= j < k ==> ies[j].id != id
  }

  lemma MandatoryIeMeaning(ies: seq<Ie>, id: IeId)
    ensures MandatoryIe(ies, id).Ok? <==> id in IdsOf(ies)
    ensures MandatoryIe(ies, id).Fatal? ==> MandatoryIe(ies, id) == Fatal(MandatoryIeMissing(id))
    ensures MandatoryIe(ies, id).Ok? ==> exists k :: IsFirstIe(ies, id, k) && MandatoryIe(ies, id).value == ies[k]
  {
    FirstIeFromIsFirst(ies, id, 0);
    var ids := IdsOf(ies);
    if id in ids {
      var k :| 0 <= k < |ids| && ids[k] == id;
      assert ies[k].id == id;
      assert IsFirstIe(ies, id, FirstIeFrom(ies, id, 0).value);
    }
  }

  // ---------------------------------------------------------------------------
  // Reset
  // ---------------------------------------------------------------------------

  /** The DU's cause group and value for a wire Cause; the other choices abort. */
  function CauseOf(c: Cause): Result<(CauseGroup, int)>
  {
    match c
    case RadioNetworkCause(v) => Ok((CauseRadioNetwork, v))
    case TransportCause(v) => Ok((CauseTransport, v))
    case ProtocolCause(v) => Ok((CauseProtocol, v))
    case MiscCause(v) => Ok((CauseMisc, v))
    case _ => Fatal(UnknownCause)
  }

  /** The wire Cause that a cause group and value stand for. */
  function WireCause(group: CauseGroup, value: int): Cause
  {
    match group
    case CauseRadioNetwork => RadioNetworkCause(value)
    case CauseTransport => TransportCause(value)
    case CauseProtocol => ProtocolCause(value)
    case CauseMisc => MiscCause(value)
  }

  /** CauseOf accepts exactly the four cause groups, and it and WireCause are inverse to each other. */
  lemma CauseRoundTrip(c: Cause, group: CauseGroup, value: int)
    ensures CauseOf(c).Ok? <==> !c.CauseNothing? && !c.CauseExtension?
    ensures CauseOf(c).Ok? ==> WireCause(CauseOf(c).value.0, CauseOf(c).value.1) == c
    ensures CauseOf(WireCause(group, value)) == Ok((group, value))
  {
  }

  /** The DU's reset scope for a wire ResetType; the other choices abort. */
  function ResetScopeOf(t: ResetType): Result<ResetScope>
  {
    match t
    case F1Interface => Ok(ResetAll)
    case PartOfF1Interface => Ok(ResetPartOfF1Interface)
    case _ => Fatal(UnknownResetType)
  }

  /** DU_handle_RESET's decoding of the CU-initiated Reset into the reset record. */
  function ResetOf(p: Pdu): Result<ResetRequest>
  {
    var tIe :- MandatoryIe(p.ies, IdTransactionId);
    if !tIe.value.TransactionIdValue? then Fatal(WrongValue(IdTransactionId))
    else
      var cIe :- MandatoryIe(p.ies, IdCause);
      if !cIe.value.CauseValue? then Fatal(WrongValue(IdCause))
      else
        var cause :- CauseOf(cIe.value.cause);
        var rIe :- MandatoryIe(p.ies, IdResetType);
        if !rIe.value.ResetTypeValue? then Fatal(WrongValue(IdResetType))
        else
          var scope :- ResetScopeOf(rIe.value.resetType);
          if scope == ResetPartOfF1Interface then Fatal(PartialResetNotImplemented)
          else Ok(ResetRequest(tIe.value.transactionId, cause.0, cause.1, scope))
  }

  /** The Reset carries a TransactionID, a Cause of one of the four groups, and the reset type "F1 interface". */
  ghost predicate AcceptedReset(p: Pdu)
  {
    (exists k :: IsFirstIe(p.ies, IdTransactionId, k) && p.ies[k].value.TransactionIdValue?) &&
    (exists k :: IsFirstIe(p.ies, IdCause, k) && p.ies[k].value.CauseValue? &&
                 !p.ies[k].value.cause.CauseNothing? && !p.ies[k].value.cause.CauseExtension?) &&
    (exists k :: IsFirstIe(p.ies, IdResetType, k) && p.ies[k].value == ResetTypeValue(F1Interface))
  }

  lemma FirstIeUnique(ies: seq<Ie>, id: IeId, k: int, k': int)
    requires IsFirstIe(ies, id, k) && IsFirstIe(ies, id, k')
    ensures k == k'
  {
  }

  /**
   * A Reset is decoded iff it is accepted; the record then holds the value of the first
   * TransactionID IE, a cause group and value that stand for the first Cause IE, and the
   * scope "reset all". A Reset without a TransactionID aborts on that IE first.
   */
  lemma {:induction false} ResetOfMeaning(p: Pdu)
    ensures ResetOf(p).Ok? <==> AcceptedReset(p)
    ensures ResetOf(p).Ok? ==>
              var r := ResetOf(p).value;
              r.resetType == ResetAll &&
              (forall k :: IsFirstIe(p.ies, IdTransactionId, k) ==> p.ies[k].value == TransactionIdValue(r.transactionId)) &&
              (forall k :: IsFirstIe(p.ies, IdCause, k) ==> p.ies[k].value == CauseValue(WireCause(r.cause, r.causeValue)))
    ensures IdTransactionId !in IdsOf(p.ies) ==> ResetOf(p) == Fatal(MandatoryIeMissing(IdTransactionId))
  {
    MandatoryIeMeaning(p.ies, IdTransactionId);
    MandatoryIeMeaning(p.ies, IdCause);
    MandatoryIeMeaning(p.ies, IdResetType);
    forall id, k, k' | IsFirstIe(p.ies, id, k) && IsFirstIe(p.ies, id, k')
      ensures k == k'
    {
      FirstIeUnique(p.ies, id, k, k');
    }
    if ResetOf(p).Ok? {
      var cIe := MandatoryIe(p.ies, IdCause).value;
      CauseRoundTrip(cIe.value.cause, CauseRadioNetwork, 0);
    }
    if AcceptedReset(p) {
      var k :| IsFirstIe(p.ies, IdTransactionId, k) && p.ies[k].value.TransactionIdValue?;
      var c :| IsFirstIe(p.ies, IdCause, c) && p.ies[c].value.CauseValue? &&
               !p.ies[c].value.cause.CauseNothing? && !p.ies[c].value.cause.CauseExtension?;
      var t :| IsFirstIe(p.ies, IdResetType, t) && p.ies[t].value == ResetTypeValue(F1Interface);
      assert IdsOf(p.ies)[k] == IdTransactionId;
      assert IdsOf(p.ies)[c] == IdCause;
      assert IdsOf(p.ies)[t] == IdResetType;
      CauseRoundTrip(p.ies[c].value.cause, CauseRadioNetwork, 0);
    }
  }

  /**
   * The Reset Acknowledge that answers a decoded Reset echoes, as its mandatory
   * TransactionID, the value of the Reset's first TransactionID IE.
   */
  lemma ResetAcknowledgeEchoesReset(p: Pdu)
    requires ResetOf(p).Ok?
    ensures var ack := Outbound.ResetAcknowledgePdu(ResetAcknowledge(ResetOf(p).value.transactionId));
            MandatoryIe(ack.ies, IdTransactionId).Ok? &&
            MandatoryIe(ack.ies, IdTransactionId).value.value == MandatoryIe(p.ies, IdTransactionId).value.value
  {
  }

  /** DU_handle_RESET's decoding, one IE lookup after the other. */
  method DecodeReset(p: Pdu) returns (r: Result<ResetRequest>)
    ensures r == ResetOf(p)
  {
    var t := FindIe(p.ies, IdTransactionId);
    if t.None? {
      return Fatal(MandatoryIeMissing(IdTransactionId));
    }
    var tIe := p.ies[t.value];
    if !tIe.value.TransactionIdValue? {
      return Fatal(WrongValue(IdTransactionId));
    }
    var transactionId := tIe.value.transactionId;

    var c := FindIe(p.ies, IdCause);
    if c.None? {
      return Fatal(MandatoryIeMissing(IdCause));
    }
    var cIe := p.ies[c.value];
    if !cIe.value.CauseValue? {
      return Fatal(WrongValue(IdCause));
    }
    var group: CauseGroup;
    var causeValue: int;
    match cIe.value.cause {
      case RadioNetworkCause(v) => group, causeValue := CauseRadioNetwork, v;
      case TransportCause(v) => group, causeValue := CauseTransport, v;
      case ProtocolCause(v) => group, causeValue := CauseProtocol, v;
      case MiscCause(v) => group, causeValue := CauseMisc, v;
      case _ => return Fatal(UnknownCause);
    }

    var rt := FindIe(p.ies, IdResetType);
    if rt.None? {
      return Fatal(MandatoryIeMissing(IdResetType));
    }
    var rIe := p.ies[rt.value];
    if !rIe.value.ResetTypeValue? {
      return Fatal(WrongValue(IdResetType));
    }
    var scope: ResetScope;
    match rIe.value.resetType {
      case F1Interface => scope := ResetAll;
      case PartOfF1Interface => scope := ResetPartOfF1Interface;
      case _ => return Fatal(UnknownResetType);
    }
    if scope == ResetPartOfF1Interface {
      return Fatal(PartialResetNotImplemented);
    }
    r := Ok(ResetRequest(transactionId, group, causeValue, scope));
  }

  // ---------------------------------------------------------------------------
  // F1 Setup Failure
  // ---------------------------------------------------------------------------

  /**
   * DU_handle_F1_SETUP_FAILURE's checks: the TransactionID and the Cause are looked up as
   * mandatory IEs. Neither value is read; the failure record handed on is all zero.
   */
  function F1SetupFailureOf(p: Pdu): Result<()>
  {
    var tIe :- MandatoryIe(p.ies, IdTransactionId);
    var cIe :- MandatoryIe(p.ies, IdCause);
    Ok(())
  }

  /** The failure is accepted iff both mandatory IEs are there; a missing TransactionID is reported first. */
  lemma F1SetupFailureNeedsTransactionAndCause(p: Pdu)
    ensures F1SetupFailureOf(p).Ok? <==> IdTransactionId in IdsOf(p.ies) && IdCause in IdsOf(p.ies)
    ensures IdTransactionId !in IdsOf(p.ies) ==> F1SetupFailureOf(p) == Fatal(MandatoryIeMissing(IdTransactionId))
    ensures IdTransactionId in IdsOf(p.ies) && IdCause !in IdsOf(p.ies) ==>
              F1SetupFailureOf(p) == Fatal(MandatoryIeMissing(IdCause))
  {
    MandatoryIeMeaning(p.ies, IdTransactionId);
    MandatoryIeMeaning(p.ies, IdCause);
  }
}
