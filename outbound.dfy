/**
 * Outbound builders of the DU: the IE trees of Reset Acknowledge, F1 Setup Request,
 * gNB-DU Configuration Update and gNB-CU Configuration Update Acknowledge, each with the
 * fixed IE order of its procedure. Handing the tree to the encoder and sending it is in
 * module DuInterface.
 */
module Outbound {
  import opened F1apTypes
  import opened CellCodec

  // ---------------------------------------------------------------------------
  // Reset Acknowledge
  // ---------------------------------------------------------------------------

  /** DU_send_RESET_ACKNOWLEDGE's PDU: a successful outcome of Reset echoing the transaction id. */
  function ResetAcknowledgePdu(ack: ResetAcknowledge): Pdu
  {
    Pdu(SuccessfulOutcome, ResetProcedure, Reject, ResetAcknowledgeMessage,
        [Ie(IdTransactionId, Reject, TransactionIdValue(ack.transactionId))])
  }

  // ---------------------------------------------------------------------------
  // F1 Setup Request
  // ---------------------------------------------------------------------------

  /** The RRC version bitmap after looking at the first `n` bytes of `rrc_ver`. */
  function RrcVersionBitsUpTo(v: Octets3, n: nat): bv8
    requires n <= 3
  {
    if n == 0 then 0
    else RrcVersionBitsUpTo(v, n - 1) | ((if v[n - 1] != 0 then 1 else 0) << (n - 1))
  }

  /** latest-RRC-Version: one bit per non-zero byte of `rrc_ver`. */
  function RrcVersionBitmap(v: Octets3): bv8
  {
    RrcVersionBitsUpTo(v, 3)
  }

  /** Bit i of the bitmap is set iff rrc_ver[i] is non-zero; the five high bits stay clear. */
  lemma RrcVersionBitmapBits(v: Octets3)
    ensures forall i :: 0 <= i < 3 ==> ((RrcVersionBitmap(v) >> i) & 1 == 1 <==> v[i] != 0)
    ensures RrcVersionBitmap(v) >> 3 == 0
  {
    var b0: bv8 := if v[0] != 0 then 1 else 0;
    var b1: bv8 := if v[1] != 0 then 1 else 0;
    var b2: bv8 := if v[2] != 0 then 1 else 0;
    var bits := RrcVersionBitmap(v);
    assert RrcVersionBitsUpTo(v, 1) == b0;
    assert RrcVersionBitsUpTo(v, 2) == b0 | (b1 << 1);
    assert bits == b0 | (b1 << 1) | (b2 << 2);
    forall i | 0 <= i < 3
      ensures (bits >> i) & 1 == 1 <==> v[i] != 0
    {
      if i == 0 {
        assert (bits >> 0) & 1 == b0;
      } else if i == 1 {
        assert (bits >> 1) & 1 == b1;
      } else {
        assert (bits >> 2) & 1 == b2;
      }
    }
  }

  /** The RRC Version IE value: the bitmap with 5 unused bits and the three bytes as extension. */
  function RrcVersionOf(v: Octets3): RrcVersion
  {
    RrcVersion(BitString([RrcVersionBitmap(v)], 5),
               Some([RrcVersionExtension(IdLatestRrcVersionEnhanced, Ignore, v)]))
  }

  /** One GNB-DU-Served-Cells-Item IE: the served cell information, then the system information. */
  function ServedCellsItemIe(cell: DuCell, env: CodecEnv): Result<Ie>
  {
    var info :- ServedCellInformationOf(cell.info, env);
    var sys :- SystemInformationOf(cell.sysInfo);
    Ok(Ie(IdGnbDuServedCellsItem, Reject, ServedCellsItemValue(ServedCellsItem(info, sys))))
  }

  function ServedCellsItemFn(env: CodecEnv): DuCell -> Result<Ie>
  {
    cell => ServedCellsItemIe(cell, env)
  }

  /** DU_send_F1_SETUP_REQUEST's PDU; `transactionId` is the identifier the DU allocated. */
  function F1SetupRequestPdu(req: SetupRequest, transactionId: TransactionId, env: CodecEnv): Result<Pdu>
  {
    var items :- MapAll(req.cells, ServedCellsItemFn(env));
    Ok(Pdu(InitiatingMessage, F1SetupProcedure, Reject, F1SetupRequestMessage,
           [Ie(IdTransactionId, Reject, TransactionIdValue(transactionId)),
            Ie(IdGnbDuId, Reject, GnbDuIdValue(req.gnbDuId))]
           + (if req.gnbDuName.Some? then [Ie(IdGnbDuName, Ignore, NameValue(req.gnbDuName.value))] else [])
           + [Ie(IdGnbDuServedCellsList, Reject, ServedCellsListValue(items)),
              Ie(IdGnbDuRrcVersion, Reject, RrcVersionValue(RrcVersionOf(req.rrcVer)))]))
  }

  /**
   * A built F1 Setup Request is an initiating F1 Setup message with criticality reject
   * whose IEs are, in order, TransactionID, gNB-DU ID, gNB-DU Name (only when there is a
   * name), the served-cells list and the RRC version.
   */
  lemma F1SetupRequestIeOrder(req: SetupRequest, transactionId: TransactionId, env: CodecEnv)
    requires F1SetupRequestPdu(req, transactionId, env).Ok?
    ensures var p := F1SetupRequestPdu(req, transactionId, env).value;
            p.kind == InitiatingMessage && p.procedureCode == F1SetupProcedure &&
            p.criticality == Reject && p.message == F1SetupRequestMessage &&
            IdsOf(p.ies) == [IdTransactionId, IdGnbDuId]
                            + (if req.gnbDuName.Some? then [IdGnbDuName] else [])
                            + [IdGnbDuServedCellsList, IdGnbDuRrcVersion] &&
            p.ies[0].value == TransactionIdValue(transactionId) &&
            p.ies[1].value == GnbDuIdValue(req.gnbDuId) &&
            (req.gnbDuName.Some? ==> p.ies[2] == Ie(IdGnbDuName, Ignore, NameValue(req.gnbDuName.value)))
  {
    var f := ServedCellsItemFn(env);
    var r := F1SetupRequestPdu(req, transactionId, env);
    var head := [Ie(IdTransactionId, Reject, TransactionIdValue(transactionId)),
                 Ie(IdGnbDuId, Reject, GnbDuIdValue(req.gnbDuId))];
    var tail := [Ie(IdGnbDuServedCellsList, Reject, ServedCellsListValue(MapAll(req.cells, f).value)),
                 Ie(IdGnbDuRrcVersion, Reject, RrcVersionValue(RrcVersionOf(req.rrcVer)))];
    if req.gnbDuName.Some? {
      var ies := head + [Ie(IdGnbDuName, Ignore, NameValue(req.gnbDuName.value))] + tail;
      assert r.value.ies == ies;
      assert IdsOf(ies) == [IdTransactionId, IdGnbDuId, IdGnbDuName, IdGnbDuServedCellsList, IdGnbDuRrcVersion];
    } else {
      var ies := head + [] + tail;
      assert r.value.ies == ies;
      assert IdsOf(ies) == [IdTransactionId, IdGnbDuId, IdGnbDuServedCellsList, IdGnbDuRrcVersion];
    }
  }

  /** The F1 Setup Request is built exactly when every available cell encodes. */
  lemma F1SetupRequestBuilds(req: SetupRequest, transactionId: TransactionId, env: CodecEnv)
    ensures F1SetupRequestPdu(req, transactionId, env).Ok? <==>
              forall k :: 0 <= k < |req.cells| ==> ServedCellsItemIe(req.cells[k], env).Ok?
  {
    var f := ServedCellsItemFn(env);
    MapAllSucceeds(req.cells, f);
    assert forall k :: 0 <= k < |req.cells| ==> f(req.cells[k]) == ServedCellsItemIe(req.cells[k], env);
  }

  /**
   * The served-cells list holds one item per available cell, in order; when a cell does
   * not encode, the request aborts with the fault of the first such cell.
   */
  lemma F1SetupRequestServedCells(req: SetupRequest, transactionId: TransactionId, env: CodecEnv)
    ensures F1SetupRequestPdu(req, transactionId, env).Ok? ==>
              var ies := F1SetupRequestPdu(req, transactionId, env).value.ies;
              var list := ies[|ies| - 2].value;
              list.ServedCellsListValue? &&
              |list.servedCells| == |req.cells| &&
              forall k :: 0 <= k < |req.cells| ==> ServedCellsItemIe(req.cells[k], env) == Ok(list.servedCells[k])
    ensures forall i :: 0 <= i < |req.cells| && ServedCellsItemIe(req.cells[i], env).Fatal? &&
                        (forall k :: 0 <= k < i ==> ServedCellsItemIe(req.cells[k], env).Ok?) ==>
              F1SetupRequestPdu(req, transactionId, env) == Fatal(ServedCellsItemIe(req.cells[i], env).fault)
  {
    var f := ServedCellsItemFn(env);
    MapAllSucceeds(req.cells, f);
    forall i | 0 <= i < |req.cells| && ServedCellsItemIe(req.cells[i], env).Fatal? &&
               (forall k :: 0 <= k < i ==> ServedCellsItemIe(req.cells[k], env).Ok?)
      ensures F1SetupRequestPdu(req, transactionId, env) == Fatal(ServedCellsItemIe(req.cells[i], env).fault)
    {
      assert forall k :: 0 <= k < i ==> f(req.cells[k]) == ServedCellsItemIe(req.cells[k], env);
      MapAllFirstFault(req.cells, f, i);
    }
  }

  /**
   * The RRC Version IE: a one-byte bitmap with 5 unused bits whose bit i is set iff
   * rrc_ver[i] is non-zero, and one extension carrying the three bytes verbatim.
   */
  lemma F1SetupRequestRrcVersion(req: SetupRequest, transactionId: TransactionId, env: CodecEnv)
    ensures F1SetupRequestPdu(req, transactionId, env).Ok? ==>
              var ies := F1SetupRequestPdu(req, transactionId, env).value.ies;
              var v := ies[|ies| - 1].value;
              v.RrcVersionValue? &&
              v.rrcVersion.latestRrcVersion.bitsUnused == 5 &&
              |v.rrcVersion.latestRrcVersion.buf| == 1 &&
              (forall i :: 0 <= i < 3 ==>
                 ((v.rrcVersion.latestRrcVersion.buf[0] >> i) & 1 == 1 <==> req.rrcVer[i] != 0)) &&
              v.rrcVersion.extensions == Some([RrcVersionExtension(IdLatestRrcVersionEnhanced, Ignore, req.rrcVer)])
  {
    RrcVersionBitmapBits(req.rrcVer);
  }

  /** DU_send_F1_SETUP_REQUEST's construction: the cell list, then the bitmap accumulator. */
  method BuildF1SetupRequest(req: SetupRequest, transactionId: TransactionId, env: CodecEnv) returns (r: Result<Pdu>)
    ensures r == F1SetupRequestPdu(req, transactionId, env)
  {
    var ies := [Ie(IdTransactionId, Reject, TransactionIdValue(transactionId)),
                Ie(IdGnbDuId, Reject, GnbDuIdValue(req.gnbDuId))];
    if req.gnbDuName.Some? {
      ies := ies + [Ie(IdGnbDuName, Ignore, NameValue(req.gnbDuName.value))];
    }

    ghost var f := ServedCellsItemFn(env);
    var items: seq<Ie> := [];
    for i := 0 to |req.cells|
      invariant |items| == i
      invariant forall k :: 0 <= k < i ==> f(req.cells[k]) == Ok(items[k])
    {
      var info := EncodeServedCellInfo(req.cells[i].info, env);
      assert f(req.cells[i]) == ServedCellsItemIe(req.cells[i], env);
      if info.Fatal? {
        MapAllFirstFault(req.cells, f, i);
        assert MapAll(req.cells, f) == Fatal(info.fault);
        return Fatal(info.fault);
      }
      var sys := SystemInformationOf(req.cells[i].sysInfo);
      if sys.Fatal? {
        MapAllFirstFault(req.cells, f, i);
        return Fatal(sys.fault);
      }
      items := items + [Ie(IdGnbDuServedCellsItem, Reject, ServedCellsItemValue(ServedCellsItem(info.value, sys.value)))];
    }
    MapAllOfAllOk(req.cells, f, items);
    assert MapAll(req.cells, ServedCellsItemFn(env)) == Ok(items);

    var bits: bv8 := 0;
    for i := 0 to 3
      invariant bits == RrcVersionBitsUpTo(req.rrcVer, i)
    {
      bits := bits | ((if req.rrcVer[i] != 0 then 1 else 0) << i);
    }
    var rrcVersion := RrcVersion(BitString([bits], 5),
                                 Some([RrcVersionExtension(IdLatestRrcVersionEnhanced, Ignore, req.rrcVer)]));
    assert rrcVersion == RrcVersionOf(req.rrcVer);
    ies := ies + [Ie(IdGnbDuServedCellsList, Reject, ServedCellsListValue(items)),
                  Ie(IdGnbDuRrcVersion, Reject, RrcVersionValue(rrcVersion))];
    r := Ok(Pdu(InitiatingMessage, F1SetupProcedure, Reject, F1SetupRequestMessage, ies));
    assert r.value == F1SetupRequestPdu(req, transactionId, env).value;
  }

  // ---------------------------------------------------------------------------
  // gNB-DU Configuration Update
  // ---------------------------------------------------------------------------

  /** One Served-Cells-To-Modify-Item IE: the old NRCGI, the served cell information, the system information. */
  function ModifiedCellIe(m: CellToModify, env: CodecEnv): Result<Ie>
  {
    var info :- ServedCellInformationOf(m.cell.info, env);
    var sys :- SystemInformationOf(m.cell.sysInfo);
    Ok(Ie(IdServedCellsToModifyItem, Reject,
          ServedCellsToModifyItemValue(ServedCellsToModifyItem(
            Nrcgi(env.codec.plmnToOctets(m.oldPlmn), env.codec.cellIdToBits(m.oldNrCellId)), info, sys))))
  }

  function ModifiedCellFn(env: CodecEnv): CellToModify -> Result<Ie>
  {
    m => ModifiedCellIe(m, env)
  }

  /** The IEs after the TransactionID: the modify list, present only when there are cells to modify. */
  function ModifyListIes(upd: DuConfigurationUpdate, env: CodecEnv): Result<seq<Ie>>
  {
    if |upd.cellsToModify| == 0 then Ok([])
    else
      var items :- MapAll(upd.cellsToModify, ModifiedCellFn(env));
      Ok([Ie(IdServedCellsToModifyList, Reject, ServedCellsToModifyListValue(items))])
  }

  /** DU_send_gNB_DU_CONFIGURATION_UPDATE's PDU. */
  function DuConfigurationUpdatePdu(upd: DuConfigurationUpdate, env: CodecEnv): Result<Pdu>
  {
    if |upd.cellsToAdd| > 0 then Fatal(CellsToAddNotTested)
    else
      var modifyIes :- ModifyListIes(upd, env);
      if |upd.cellsToDelete| > 0 then Fatal(CellsToDeleteNotTested)
      else if upd.gnbDuId != 0 then Fatal(GnbDuIdNotHandled)
      else Ok(Pdu(InitiatingMessage, GnbDuConfigurationUpdateProcedure, Reject, GnbDuConfigurationUpdateMessage,
                  [Ie(IdTransactionId, Reject, TransactionIdValue(upd.transactionId))] + modifyIes))
  }

  /**
   * Adding cells aborts; otherwise the update is built iff every modified cell encodes,
   * there is nothing to delete and the gNB-DU ID is 0. It carries the caller's
   * transaction id, then the modify list only when there are cells to modify, with one
   * item per cell in order, each naming the cell's old NRCGI.
   */
  lemma DuConfigurationUpdateShape(upd: DuConfigurationUpdate, env: CodecEnv)
    ensures |upd.cellsToAdd| > 0 ==> DuConfigurationUpdatePdu(upd, env) == Fatal(CellsToAddNotTested)
    ensures |upd.cellsToAdd| == 0 ==>
              (DuConfigurationUpdatePdu(upd, env).Ok? <==>
                 (forall k :: 0 <= k < |upd.cellsToModify| ==> ModifiedCellIe(upd.cellsToModify[k], env).Ok?) &&
                 |upd.cellsToDelete| == 0 && upd.gnbDuId == 0)
    ensures DuConfigurationUpdatePdu(upd, env).Ok? ==>
              var p := DuConfigurationUpdatePdu(upd, env).value;
              p.kind == InitiatingMessage && p.procedureCode == GnbDuConfigurationUpdateProcedure &&
              p.criticality == Reject &&
              IdsOf(p.ies) == [IdTransactionId] + (if |upd.cellsToModify| > 0 then [IdServedCellsToModifyList] else []) &&
              p.ies[0].value == TransactionIdValue(upd.transactionId) &&
              (|upd.cellsToModify| > 0 ==>
                 p.ies[1].value.ServedCellsToModifyListValue? &&
                 |p.ies[1].value.cellsToModify| == |upd.cellsToModify| &&
                 forall k :: 0 <= k < |upd.cellsToModify| ==>
                   ModifiedCellIe(upd.cellsToModify[k], env) == Ok(p.ies[1].value.cellsToModify[k]) &&
                   p.ies[1].value.cellsToModify[k].value.cellToModify.oldNrcgi ==
                     Nrcgi(env.codec.plmnToOctets(upd.cellsToModify[k].oldPlmn),
                           env.codec.cellIdToBits(upd.cellsToModify[k].oldNrCellId)))
  {
    var f := ModifiedCellFn(env);
    MapAllSucceeds(upd.cellsToModify, f);
    assert forall k :: 0 <= k < |upd.cellsToModify| ==> f(upd.cellsToModify[k]) == ModifiedCellIe(upd.cellsToModify[k], env);
  }

  /** DU_send_gNB_DU_CONFIGURATION_UPDATE's construction, growing the modify list cell by cell. */
  method BuildDuConfigurationUpdate(upd: DuConfigurationUpdate, env: CodecEnv) returns (r: Result<Pdu>)
    ensures r == DuConfigurationUpdatePdu(upd, env)
  {
    var transactionIe := Ie(IdTransactionId, Reject, TransactionIdValue(upd.transactionId));
    if |upd.cellsToAdd| > 0 {
      return Fatal(CellsToAddNotTested);
    }
    var modifyIes: seq<Ie> := [];
    if |upd.cellsToModify| > 0 {
      ghost var f := ModifiedCellFn(env);
      var items: seq<Ie> := [];
      for i := 0 to |upd.cellsToModify|
        invariant |items| == i
        invariant forall k :: 0 <= k < i ==> f(upd.cellsToModify[k]) == Ok(items[k])
      {
        var m := upd.cellsToModify[i];
        var oldNrcgi := Nrcgi(env.codec.plmnToOctets(m.oldPlmn), env.codec.cellIdToBits(m.oldNrCellId));
        var info := EncodeServedCellInfo(m.cell.info, env);
        assert f(m) == ModifiedCellIe(m, env);
        if info.Fatal? {
          MapAllFirstFault(upd.cellsToModify, f, i);
          assert ModifyListIes(upd, env) == Fatal(info.fault);
          return Fatal(info.fault);
        }
        var sys := SystemInformationOf(m.cell.sysInfo);
        if sys.Fatal? {
          MapAllFirstFault(upd.cellsToModify, f, i);
          assert ModifyListIes(upd, env) == Fatal(sys.fault);
          return Fatal(sys.fault);
        }
        items := items + [Ie(IdServedCellsToModifyItem, Reject,
                             ServedCellsToModifyItemValue(ServedCellsToModifyItem(oldNrcgi, info.value, sys.value)))];
      }
      MapAllOfAllOk(upd.cellsToModify, f, items);
      modifyIes := [Ie(IdServedCellsToModifyList, Reject, ServedCellsToModifyListValue(items))];
    }
    assert ModifyListIes(upd, env) == Ok(modifyIes);
    if |upd.cellsToDelete| > 0 {
      return Fatal(CellsToDeleteNotTested);
    }
    if upd.gnbDuId != 0 {
      return Fatal(GnbDuIdNotHandled);
    }
    r := Ok(Pdu(InitiatingMessage, GnbDuConfigurationUpdateProcedure, Reject, GnbDuConfigurationUpdateMessage,
                [transactionIe] + modifyIes));
  }

  // ---------------------------------------------------------------------------
  // gNB-CU Configuration Update Acknowledge
  // ---------------------------------------------------------------------------

  /**
   * DU_send_gNB_CU_CONFIGURATION_UPDATE_ACKNOWLEDGE's PDU; `transactionId` is the identifier
   * the DU's generator hands out.
   */
  function CuConfigurationUpdateAcknowledgePdu(ack: CuConfigurationUpdateAcknowledge, transactionId: TransactionId): Result<Pdu>
  {
    if ack.numCellsFailedToBeActivated != 0 then Fatal(CellsFailedToActivate)
    else if ack.noofTnlAssociationsToSetup != 0 then Fatal(TnlAssociationsToSetup)
    else if ack.noofTnlAssociationsFailed != 0 then Fatal(TnlAssociationsFailed)
    else if ack.noofDedicatedSiDeliveryNeededUes != 0 then Fatal(DedicatedSiDeliveryNeeded)
    else Ok(Pdu(SuccessfulOutcome, GnbCuConfigurationUpdateProcedure, Reject, GnbCuConfigurationUpdateAcknowledgeMessage,
                [Ie(IdTransactionId, Reject, TransactionIdValue(transactionId))]))
  }

  /** The acknowledge is built iff all four failure counters are zero, and then holds only the TransactionID. */
  lemma CuConfigurationUpdateAcknowledgeShape(ack: CuConfigurationUpdateAcknowledge, transactionId: TransactionId)
    ensures CuConfigurationUpdateAcknowledgePdu(ack, transactionId).Ok? <==>
              ack.numCellsFailedToBeActivated == 0 && ack.noofTnlAssociationsToSetup == 0 &&
              ack.noofTnlAssociationsFailed == 0 && ack.noofDedicatedSiDeliveryNeededUes == 0
    ensures CuConfigurationUpdateAcknowledgePdu(ack, transactionId).Ok? ==>
              var p := CuConfigurationUpdateAcknowledgePdu(ack, transactionId).value;
              p.kind == SuccessfulOutcome && p.procedureCode == GnbCuConfigurationUpdateProcedure &&
              p.ies == [Ie(IdTransactionId, Reject, TransactionIdValue(transactionId))]
  {
  }
}
