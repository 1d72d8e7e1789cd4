/**
 * The DU's F1AP interface-management entry points: the senders encode a PDU and queue it
 * for SCTP, the handlers decode a received PDU and hand a message on to another task.
 *
 * The ASN.1 PER encoder (f1ap_encode_pdu) is the `encode` parameter, which yields no
 * bytes when encoding fails. The SCTP data requests the senders queue are the `outbox`,
 * and the messages the handlers hand on through ITTI or the MAC/RRC callbacks are the
 * `events`. The transaction-id generator is an argument of the senders that use it.
 */
module DuInterface {
  import opened F1apTypes
  import opened Outbound
  import Inbound
  import ActivationHandlers

  /** f1ap_itti_send_sctp_data_req's message: the association and the encoded PDU. */
  datatype SctpDataReq = SctpDataReq(assocId: int, buffer: Octets)

  /** What the handlers hand on to the rest of the DU. */
  datatype DuEvent =
    | ResetCuInitiated(originInstance: int, reset: ResetRequest)
    | F1SetupResponseReceived(response: SetupResponse)
    | F1SetupFailureReceived
    | CuConfigurationUpdateReceived(assocId: int, update: CuConfigurationUpdate)

  /** The entry points whose whole body is an abort. */
  datatype Unimplemented =
    | SendReset
    | HandleResetAcknowledge
    | SendErrorIndication
    | HandleErrorIndication
    | HandleDuConfigurationFailure
    | HandleDuConfigurationUpdateAcknowledge
    | SendCuConfigurationUpdateFailure
    | SendResourceCoordinationRequest
    | HandleResourceCoordinationResponse

  /**
   * The outbox and return code after trying to send `pdu`: one data request with the
   * encoded bytes and 0, or nothing and -1 when the encoder fails.
   */
  function SendOutcome(encode: Pdu -> Option<Octets>, outbox: seq<SctpDataReq>, assocId: int, pdu: Pdu): (seq<SctpDataReq>, int)
  {
    match encode(pdu)
    case None => (outbox, -1)
    case Some(buffer) => (outbox + [SctpDataReq(assocId, buffer)], 0)
  }

  class DuF1ap {
    var outbox: seq<SctpDataReq>
    var events: seq<DuEvent>
    const encode: Pdu -> Option<Octets>
    const env: CodecEnv

    constructor(encode: Pdu -> Option<Octets>, env: CodecEnv)
      ensures outbox == [] && events == []
      ensures this.encode == encode && this.env == env
    {
      this.encode := encode;
      this.env := env;
      outbox := [];
      events := [];
    }

    /** f1ap_encode_pdu followed, when it succeeds, by f1ap_itti_send_sctp_data_req. */
    method EncodeAndSend(assocId: int, pdu: Pdu) returns (rc: int)
      modifies this
      ensures (outbox, rc) == SendOutcome(encode, old(outbox), assocId, pdu)
      ensures events == old(events)
    {
      var buffer := encode(pdu);
      if buffer.None? {
        return -1;
      }
      outbox := outbox + [SctpDataReq(assocId, buffer.value)];
      rc := 0;
    }

    /** DU_send_RESET_ACKNOWLEDGE. */
    method SendResetAcknowledge(assocId: int, ack: ResetAcknowledge) returns (rc: int)
      modifies this
      ensures (outbox, rc) == SendOutcome(encode, old(outbox), assocId, ResetAcknowledgePdu(ack))
      ensures events == old(events)
    {
      var pdu := Pdu(SuccessfulOutcome, ResetProcedure, Reject, ResetAcknowledgeMessage,
                     [Ie(IdTransactionId, Reject, TransactionIdValue(ack.transactionId))]);
      rc := EncodeAndSend(assocId, pdu);
    }

    /** DU_send_F1_SETUP_REQUEST; `transactionId` is the generator's next identifier. */
    method SendF1SetupRequest(assocId: int, req: SetupRequest, transactionId: TransactionId) returns (r: Result<int>)
      modifies this
      ensures F1SetupRequestPdu(req, transactionId, env).Fatal? ==>
                r == Fatal(F1SetupRequestPdu(req, transactionId, env).fault) && outbox == old(outbox)
      ensures F1SetupRequestPdu(req, transactionId, env).Ok? ==>
                r.Ok? && (outbox, r.value) == SendOutcome(encode, old(outbox), assocId, F1SetupRequestPdu(req, transactionId, env).value)
      ensures events == old(events)
    {
      var pdu := BuildF1SetupRequest(req, transactionId, env);
      if pdu.Fatal? {
        return Fatal(pdu.fault);
      }
      var rc := EncodeAndSend(assocId, pdu.value);
      r := Ok(rc);
    }

    /** DU_send_gNB_DU_CONFIGURATION_UPDATE; the transaction id is the one the caller put in `upd`. */
    method SendDuConfigurationUpdate(assocId: int, upd: DuConfigurationUpdate) returns (r: Result<int>)
      modifies this
      ensures DuConfigurationUpdatePdu(upd, env).Fatal? ==>
                r == Fatal(DuConfigurationUpdatePdu(upd, env).fault) && outbox == old(outbox)
      ensures DuConfigurationUpdatePdu(upd, env).Ok? ==>
                r.Ok? && (outbox, r.value) == SendOutcome(encode, old(outbox), assocId, DuConfigurationUpdatePdu(upd, env).value)
      ensures events == old(events)
    {
      var pdu := BuildDuConfigurationUpdate(upd, env);
      if pdu.Fatal? {
        return Fatal(pdu.fault);
      }
      var rc := EncodeAndSend(assocId, pdu.value);
      r := Ok(rc);
    }

    /** DU_send_gNB_CU_CONFIGURATION_UPDATE_ACKNOWLEDGE; `transactionId` is the generator's next identifier. */
    method SendCuConfigurationUpdateAcknowledge(assocId: int, ack: CuConfigurationUpdateAcknowledge, transactionId: TransactionId)
      returns (r: Result<int>)
      modifies this
      ensures CuConfigurationUpdateAcknowledgePdu(ack, transactionId).Fatal? ==>
                r == Fatal(CuConfigurationUpdateAcknowledgePdu(ack, transactionId).fault) && outbox == old(outbox)
      ensures CuConfigurationUpdateAcknowledgePdu(ack, transactionId).Ok? ==>
                r.Ok? && (outbox, r.value) == SendOutcome(encode, old(outbox), assocId, CuConfigurationUpdateAcknowledgePdu(ack, transactionId).value)
      ensures events == old(events)
    {
      if ack.numCellsFailedToBeActivated != 0 {
        return Fatal(CellsFailedToActivate);
      }
      if ack.noofTnlAssociationsToSetup != 0 {
        return Fatal(TnlAssociationsToSetup);
      }
      if ack.noofTnlAssociationsFailed != 0 {
        return Fatal(TnlAssociationsFailed);
      }
      if ack.noofDedicatedSiDeliveryNeededUes != 0 {
        return Fatal(DedicatedSiDeliveryNeeded);
      }
      var pdu := Pdu(SuccessfulOutcome, GnbCuConfigurationUpdateProcedure, Reject, GnbCuConfigurationUpdateAcknowledgeMessage,
                     [Ie(IdTransactionId, Reject, TransactionIdValue(transactionId))]);
      var rc := EncodeAndSend(assocId, pdu);
      r := Ok(rc);
    }

    /** DU_handle_RESET: a decoded Reset is handed on as a CU-initiated reset of this association. */
    method HandleReset(assocId: int, p: Pdu) returns (r: Result<int>)
      modifies this
      ensures Inbound.ResetOf(p).Fatal? ==> r == Fatal(Inbound.ResetOf(p).fault) && events == old(events)
      ensures Inbound.ResetOf(p).Ok? ==>
                r == Ok(0) && events == old(events) + [ResetCuInitiated(assocId, Inbound.ResetOf(p).value)]
      ensures outbox == old(outbox)
    {
      var reset := Inbound.DecodeReset(p);
      if reset.Fatal? {
        return Fatal(reset.fault);
      }
      events := events + [ResetCuInitiated(assocId, reset.value)];
      r := Ok(0);
    }

    /** DU_handle_F1_SETUP_RESPONSE: a decoded response is handed on to the MAC/RRC side. */
    method HandleF1SetupResponse(p: Pdu) returns (r: Result<int>)
      modifies this
      ensures ActivationHandlers.F1SetupResponseOf(p, env.codec).Fatal? ==>
                r == Fatal(ActivationHandlers.F1SetupResponseOf(p, env.codec).fault) && events == old(events)
      ensures ActivationHandlers.F1SetupResponseOf(p, env.codec).Ok? ==>
                r == Ok(0) &&
                events == old(events) + [F1SetupResponseReceived(ActivationHandlers.F1SetupResponseOf(p, env.codec).value)]
      ensures outbox == old(outbox)
    {
      var resp := ActivationHandlers.DecodeF1SetupResponse(p, env.codec);
      if resp.Fatal? {
        return Fatal(resp.fault);
      }
      events := events + [F1SetupResponseReceived(resp.value)];
      r := Ok(0);
    }

    /** DU_handle_F1_SETUP_FAILURE: after the two mandatory lookups, an all-zero failure record is handed on. */
    method HandleF1SetupFailure(p: Pdu) returns (r: Result<int>)
      modifies this
      ensures Inbound.F1SetupFailureOf(p).Fatal? ==> r == Fatal(Inbound.F1SetupFailureOf(p).fault) && events == old(events)
      ensures Inbound.F1SetupFailureOf(p).Ok? ==> r == Ok(0) && events == old(events) + [F1SetupFailureReceived]
      ensures outbox == old(outbox)
    {
      var t := Inbound.FindIe(p.ies, IdTransactionId);
      if t.None? {
        return Fatal(MandatoryIeMissing(IdTransactionId));
      }
      var c := Inbound.FindIe(p.ies, IdCause);
      if c.None? {
        return Fatal(MandatoryIeMissing(IdCause));
      }
      events := events + [F1SetupFailureReceived];
      r := Ok(0);
    }

    /** DU_handle_gNB_CU_CONFIGURATION_UPDATE: a decoded update is sent to the gNB application task. */
    method HandleCuConfigurationUpdate(assocId: int, p: Pdu) returns (r: Result<int>)
      modifies this
      ensures ActivationHandlers.CuConfigurationUpdateOf(p, env.codec).Fatal? ==>
                r == Fatal(ActivationHandlers.CuConfigurationUpdateOf(p, env.codec).fault) && events == old(events)
      ensures ActivationHandlers.CuConfigurationUpdateOf(p, env.codec).Ok? ==>
                r == Ok(0) &&
                events == old(events) + [CuConfigurationUpdateReceived(assocId, ActivationHandlers.CuConfigurationUpdateOf(p, env.codec).value)]
      ensures outbox == old(outbox)
    {
      var upd := ActivationHandlers.DecodeCuConfigurationUpdate(p, env.codec);
      if upd.Fatal? {
        return Fatal(upd.fault);
      }
      events := events + [CuConfigurationUpdateReceived(assocId, upd.value)];
      r := Ok(0);
    }
  }

  /** The stubs: every call aborts, and nothing is sent or handed on. */
  method CallUnimplemented(entry: Unimplemented) returns (r: Result<int>)
    ensures r == Fatal(NotImplemented)
  {
    r := Fatal(NotImplemented);
  }
}
