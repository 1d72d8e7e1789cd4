/**
 * DU_handle_F1_SETUP_RESPONSE and DU_handle_gNB_CU_CONFIGURATION_UPDATE: the header
 * checks, the loop over the message's IEs and the checks after it. The two loops differ
 * only in the IEs they know, so one loop parameterised by the handler models both.
 */
module ActivationHandlers {
  import opened F1apTypes
  import opened ActivatedCells

  /**
   * What the IE loop has gathered so far: the TransactionID (None while it is still the
   * initial -1), the gNB-CU name, rrc_ver, num_cells_to_activate and the cell slots.
   */
  datatype LoopState = LoopState(
    transactionId: Option<TransactionId>,
    gnbCuName: Option<Octets>,
    rrcVer: Octets3,
    numCells: nat,
    slots: Slots)

  const InitialState := LoopState(None, None, [0, 0, 0], 0, map[])

  /** The criticality an IE id must carry in the message `handler` decodes; None for an id it does not know. */
  function ExpectedCriticality(handler: Handler, id: IeId): Option<Criticality>
  {
    match id
    case IdTransactionId => Some(Reject)
    case IdCellsToBeActivatedList => Some(Reject)
    case IdGnbCuName => if handler == SetupResponseHandler then Some(Ignore) else None
    case IdGnbCuRrcVersion => if handler == SetupResponseHandler then Some(Reject) else None
    case _ => None
  }

  /** An RRC Version IE whose extension list has an entry, the only kind that sets rrc_ver. */
  predicate CarriesRrcExtension(ie: Ie)
  {
    ie.id == IdGnbCuRrcVersion && ie.value.RrcVersionValue? &&
    ie.value.rrcVersion.extensions.Some? && |ie.value.rrcVersion.extensions.value| > 0
  }

  /** One pass of the IE switch. */
  function IeStep(handler: Handler, st: LoopState, ie: Ie, codec: IdentityCodec): Result<LoopState>
  {
    match ie.id
    case IdTransactionId =>
      if ie.criticality != Reject then Fatal(WrongCriticality(ie.id))
      else if !ie.value.TransactionIdValue? then Fatal(WrongValue(ie.id))
      else Ok(st.(transactionId := Some(ie.value.transactionId)))
    case IdGnbCuName =>
      if handler != SetupResponseHandler then Fatal(UnknownIe(ie.id))
      else if ie.criticality != Ignore then Fatal(WrongCriticality(ie.id))
      else if !ie.value.NameValue? then Fatal(WrongValue(ie.id))
      else Ok(st.(gnbCuName := Some(ie.value.name)))
    case IdGnbCuRrcVersion =>
      if handler != SetupResponseHandler then Fatal(UnknownIe(ie.id))
      else if ie.criticality != Reject then Fatal(WrongCriticality(ie.id))
      else if !ie.value.RrcVersionValue? then Fatal(WrongValue(ie.id))
      else
        var ext := ie.value.rrcVersion.extensions;
        if ext.Some? && |ext.value| > 0 then Ok(st.(rrcVer := ext.value[0].latestRrcVersionEnhanced))
        else Ok(st)
    case IdCellsToBeActivatedList =>
      if ie.criticality != Reject then Fatal(WrongCriticality(ie.id))
      else if !ie.value.CellsToBeActivatedListValue? then Fatal(WrongValue(ie.id))
      else
        var slots :- CellsFrom(st.slots, ie.value.cellsToActivate, 0, handler, codec);
        Ok(st.(numCells := |ie.value.cellsToActivate|, slots := slots))
    case _ => Fatal(UnknownIe(ie.id))
  }

  /** The IE loop from IE `i` on. */
  function IesFrom(handler: Handler, st: LoopState, ies: seq<Ie>, i: nat, codec: IdentityCodec): Result<LoopState>
    requires i <= |ies|
    decreases |ies| - i
  {
    if i == |ies| then Ok(st)
    else
      var next :- IeStep(handler, st, ies[i], codec);
      IesFrom(handler, next, ies, i + 1, codec)
  }

  /** A message whose IE loop completes has only IEs its handler knows, each with the criticality its id demands. */
  lemma {:induction false} IesFromCriticality(handler: Handler, st: LoopState, ies: seq<Ie>, i: nat, codec: IdentityCodec)
    requires i <= |ies|
    ensures IesFrom(handler, st, ies, i, codec).Ok? ==>
              forall k :: i <= k < |ies| ==> ExpectedCriticality(handler, ies[k].id) == Some(ies[k].criticality)
    decreases |ies| - i
  {
    if i < |ies| {
      var next := IeStep(handler, st, ies[i], codec);
      if next.Ok? {
        IesFromCriticality(handler, next.value, ies, i + 1, codec);
      }
    }
  }

  /**
   * After the loop the TransactionID is known iff it was known before or some IE is a
   * TransactionID; a field whose IE does not occur keeps its value.
   */
  lemma {:induction false} IesFromFrame(handler: Handler, st: LoopState, ies: seq<Ie>, i: nat, codec: IdentityCodec)
    requires i <= |ies|
    ensures IesFrom(handler, st, ies, i, codec).Ok? ==>
              var after := IesFrom(handler, st, ies, i, codec).value;
              (after.transactionId.Some? <==>
                 st.transactionId.Some? || exists k :: i <= k < |ies| && ies[k].id == IdTransactionId) &&
              ((forall k :: i <= k < |ies| ==> ies[k].id != IdGnbCuName) ==> after.gnbCuName == st.gnbCuName) &&
              ((forall k :: i <= k < |ies| ==> !CarriesRrcExtension(ies[k])) ==> after.rrcVer == st.rrcVer) &&
              ((forall k :: i <= k < |ies| ==> ies[k].id != IdCellsToBeActivatedList) ==>
                 after.numCells == st.numCells && after.slots == st.slots)
    decreases |ies| - i
  {
    if i < |ies| {
      var next := IeStep(handler, st, ies[i], codec);
      if next.Ok? {
        IesFromFrame(handler, next.value, ies, i + 1, codec);
      }
    }
  }

  /**
   * When IE j is the only Cells-to-be-Activated list from IE `i` on, the loop leaves
   * num_cells_to_activate at that list's length and the slots as that list writes them.
   */
  lemma {:induction false} IesFromSingleList(handler: Handler, st: LoopState, ies: seq<Ie>, i: nat, j: nat, codec: IdentityCodec)
    requires i <= j < |ies|
    requires ies[j].id == IdCellsToBeActivatedList
    requires forall k :: i <= k < |ies| && k != j ==> ies[k].id != IdCellsToBeActivatedList
    ensures IesFrom(handler, st, ies, i, codec).Ok? ==>
              var after := IesFrom(handler, st, ies, i, codec).value;
              ies[j].value.CellsToBeActivatedListValue? &&
              after.numCells == |ies[j].value.cellsToActivate| &&
              CellsFrom(st.slots, ies[j].value.cellsToActivate, 0, handler, codec) == Ok(after.slots)
    decreases |ies| - i
  {
    var next := IeStep(handler, st, ies[i], codec);
    if next.Ok? {
      if i < j {
        assert next.value.slots == st.slots;
        IesFromSingleList(handler, next.value, ies, i + 1, j, codec);
      } else {
        IesFromFrame(handler, next.value, ies, i + 1, codec);
      }
    }
  }

  /** The IE loop of both handlers. */
  method DecodeIes(handler: Handler, ies: seq<Ie>, codec: IdentityCodec) returns (r: Result<LoopState>)
    ensures r == IesFrom(handler, InitialState, ies, 0, codec)
  {
    var st := InitialState;
    for i := 0 to |ies|
      invariant IesFrom(handler, InitialState, ies, 0, codec) == IesFrom(handler, st, ies, i, codec)
    {
      var ie := ies[i];
      match ie.id {
        case IdTransactionId =>
          if ie.criticality != Reject {
            return Fatal(WrongCriticality(ie.id));
          }
          if !ie.value.TransactionIdValue? {
            return Fatal(WrongValue(ie.id));
          }
          st := st.(transactionId := Some(ie.value.transactionId));
        case IdGnbCuName =>
          if handler != SetupResponseHandler {
            return Fatal(UnknownIe(ie.id));
          }
          if ie.criticality != Ignore {
            return Fatal(WrongCriticality(ie.id));
          }
          if !ie.value.NameValue? {
            return Fatal(WrongValue(ie.id));
          }
          st := st.(gnbCuName := Some(ie.value.name));
        case IdGnbCuRrcVersion =>
          if handler != SetupResponseHandler {
            return Fatal(UnknownIe(ie.id));
          }
          if ie.criticality != Reject {
            return Fatal(WrongCriticality(ie.id));
          }
          if !ie.value.RrcVersionValue? {
            return Fatal(WrongValue(ie.id));
          }
          var ext := ie.value.rrcVersion.extensions;
          if ext.Some? && |ext.value| > 0 {
            st := st.(rrcVer := ext.value[0].latestRrcVersionEnhanced);
          }
        case IdCellsToBeActivatedList =>
          if ie.criticality != Reject {
            return Fatal(WrongCriticality(ie.id));
          }
          if !ie.value.CellsToBeActivatedListValue? {
            return Fatal(WrongValue(ie.id));
          }
          var slots := DecodeCellsToActivate(st.slots, ie.value.cellsToActivate, handler, codec);
          if slots.Fatal? {
            return Fatal(slots.fault);
          }
          st := st.(numCells := |ie.value.cellsToActivate|, slots := slots.value);
        case _ =>
          return Fatal(UnknownIe(ie.id));
      }
    }
    r := Ok(st);
  }

  // ---------------------------------------------------------------------------
  // F1 Setup Response
  // ---------------------------------------------------------------------------

  predicate IsF1SetupResponse(p: Pdu)
  {
    p.kind == SuccessfulOutcome && p.procedureCode == F1SetupProcedure &&
    p.criticality == Reject && p.message == F1SetupResponseMessage
  }

  /** DU_handle_F1_SETUP_RESPONSE's decoding into the setup-response record. */
  function F1SetupResponseOf(p: Pdu, codec: IdentityCodec): Result<SetupResponse>
  {
    if !IsF1SetupResponse(p) then Fatal(UnexpectedPdu)
    else
      var st :- IesFrom(SetupResponseHandler, InitialState, p.ies, 0, codec);
      if st.transactionId.None? then Fatal(TransactionIdNotSent)
      else
        var cells := Exposed(st.slots, st.numCells);
        if exists k :: 0 <= k < |cells| && cells[k].numSi != 0 then Fatal(SystemInformationNotImplemented)
        else Ok(SetupResponse(st.gnbCuName, st.rrcVer, st.numCells, cells))
  }

  /**
   * An accepted F1 Setup Response is a successful F1 Setup outcome with criticality
   * reject whose IEs are known with their criticalities, and which carries a
   * TransactionID. It hands on exactly num_cells_to_activate cells, none with system
   * information. Without a gNB-CU name IE there is no name; when no RRC Version IE has an
   * extension, rrc_ver is all zero; without a cell list, no cell.
   */
  lemma F1SetupResponseMeaning(p: Pdu, codec: IdentityCodec)
    ensures !IsF1SetupResponse(p) ==> F1SetupResponseOf(p, codec) == Fatal(UnexpectedPdu)
    ensures IdTransactionId !in IdsOf(p.ies) ==> F1SetupResponseOf(p, codec).Fatal?
    ensures F1SetupResponseOf(p, codec).Ok? ==>
              var r := F1SetupResponseOf(p, codec).value;
              (forall k :: 0 <= k < |p.ies| ==>
                 ExpectedCriticality(SetupResponseHandler, p.ies[k].id) == Some(p.ies[k].criticality)) &&
              |r.cellsToActivate| == r.numCellsToActivate &&
              (forall k :: 0 <= k < |r.cellsToActivate| ==> r.cellsToActivate[k].numSi == 0) &&
              (IdGnbCuName !in IdsOf(p.ies) ==> r.gnbCuName == None) &&
              ((forall k :: 0 <= k < |p.ies| ==> !CarriesRrcExtension(p.ies[k])) ==> r.rrcVer == [0, 0, 0]) &&
              (IdCellsToBeActivatedList !in IdsOf(p.ies) ==> r.numCellsToActivate == 0)
  {
    if IsF1SetupResponse(p) {
      IesFromCriticality(SetupResponseHandler, InitialState, p.ies, 0, codec);
      IesFromFrame(SetupResponseHandler, InitialState, p.ies, 0, codec);
      var ids := IdsOf(p.ies);
      if IdTransactionId !in ids {
        assert forall k :: 0 <= k < |p.ies| ==> p.ies[k].id == ids[k];
      }
    }
  }

  /**
   * When the response has exactly one Cells-to-be-Activated list, it hands on one cell per
   * list item, each decoded over an all-zero slot.
   */
  lemma F1SetupResponseSingleList(p: Pdu, codec: IdentityCodec, j: nat)
    requires j < |p.ies| && p.ies[j].id == IdCellsToBeActivatedList
    requires forall k :: 0 <= k < |p.ies| && k != j ==> p.ies[k].id != IdCellsToBeActivatedList
    ensures F1SetupResponseOf(p, codec).Ok? ==>
              var r := F1SetupResponseOf(p, codec).value;
              p.ies[j].value.CellsToBeActivatedListValue? &&
              var items := p.ies[j].value.cellsToActivate;
              r.numCellsToActivate == |items| &&
              forall k :: 0 <= k < |items| ==>
                ActivatedCellOf(ZeroCell, items[k], SetupResponseHandler, codec) == Ok(r.cellsToActivate[k])
  {
    if F1SetupResponseOf(p, codec).Ok? {
      IesFromSingleList(SetupResponseHandler, InitialState, p.ies, 0, j, codec);
      CellsFromMeaning(map[], p.ies[j].value.cellsToActivate, 0, SetupResponseHandler, codec);
    }
  }

  /** DU_handle_F1_SETUP_RESPONSE's decoding, with the closing loop over the cells' SI counts. */
  method DecodeF1SetupResponse(p: Pdu, codec: IdentityCodec) returns (r: Result<SetupResponse>)
    ensures r == F1SetupResponseOf(p, codec)
  {
    if !IsF1SetupResponse(p) {
      return Fatal(UnexpectedPdu);
    }
    var st := DecodeIes(SetupResponseHandler, p.ies, codec);
    if st.Fatal? {
      return Fatal(st.fault);
    }
    if st.value.transactionId.None? {
      return Fatal(TransactionIdNotSent);
    }
    var cells := Exposed(st.value.slots, st.value.numCells);
    for i := 0 to st.value.numCells
      invariant forall k :: 0 <= k < i ==> cells[k].numSi == 0
    {
      if cells[i].numSi != 0 {
        return Fatal(SystemInformationNotImplemented);
      }
    }
    r := Ok(SetupResponse(st.value.gnbCuName, st.value.rrcVer, st.value.numCells, cells));
  }

  // ---------------------------------------------------------------------------
  // gNB-CU Configuration Update
  // ---------------------------------------------------------------------------

  predicate IsCuConfigurationUpdate(p: Pdu)
  {
    p.kind == InitiatingMessage && p.procedureCode == GnbCuConfigurationUpdateProcedure &&
    p.criticality == Reject && p.message == GnbCuConfigurationUpdateMessage
  }

  /** DU_handle_gNB_CU_CONFIGURATION_UPDATE's decoding into the message it hands to the gNB application. */
  function CuConfigurationUpdateOf(p: Pdu, codec: IdentityCodec): Result<CuConfigurationUpdate>
  {
    if !IsCuConfigurationUpdate(p) then Fatal(UnexpectedPdu)
    else
      var st :- IesFrom(CuConfigurationUpdateHandler, InitialState, p.ies, 0, codec);
      if st.transactionId.None? then Fatal(TransactionIdNotSent)
      else Ok(CuConfigurationUpdate(st.numCells, Exposed(st.slots, st.numCells)))
  }

  /**
   * An accepted gNB-CU Configuration Update is an initiating message of that procedure
   * with criticality reject, whose IEs are only the TransactionID and Cells-to-be-Activated
   * lists, each with criticality reject, and which carries a TransactionID. It hands on
   * exactly num_cells_to_activate cells, and none when there is no list.
   */
  lemma CuConfigurationUpdateMeaning(p: Pdu, codec: IdentityCodec)
    ensures !IsCuConfigurationUpdate(p) ==> CuConfigurationUpdateOf(p, codec) == Fatal(UnexpectedPdu)
    ensures IdTransactionId !in IdsOf(p.ies) ==> CuConfigurationUpdateOf(p, codec).Fatal?
    ensures CuConfigurationUpdateOf(p, codec).Ok? ==>
              var u := CuConfigurationUpdateOf(p, codec).value;
              (forall k :: 0 <= k < |p.ies| ==>
                 (p.ies[k].id == IdTransactionId || p.ies[k].id == IdCellsToBeActivatedList) &&
                 p.ies[k].criticality == Reject) &&
              |u.cellsToActivate| == u.numCellsToActivate &&
              (IdCellsToBeActivatedList !in IdsOf(p.ies) ==> u.numCellsToActivate == 0)
  {
    if IsCuConfigurationUpdate(p) {
      IesFromCriticality(CuConfigurationUpdateHandler, InitialState, p.ies, 0, codec);
      IesFromFrame(CuConfigurationUpdateHandler, InitialState, p.ies, 0, codec);
      var ids := IdsOf(p.ies);
      assert forall k :: 0 <= k < |p.ies| ==> p.ies[k].id == ids[k];
    }
  }

  /**
   * When the update has exactly one Cells-to-be-Activated list, it hands on one cell per
   * list item, each decoded over an all-zero slot.
   */
  lemma CuConfigurationUpdateSingleList(p: Pdu, codec: IdentityCodec, j: nat)
    requires j < |p.ies| && p.ies[j].id == IdCellsToBeActivatedList
    requires forall k :: 0 <= k < |p.ies| && k != j ==> p.ies[k].id != IdCellsToBeActivatedList
    ensures CuConfigurationUpdateOf(p, codec).Ok? ==>
              var u := CuConfigurationUpdateOf(p, codec).value;
              p.ies[j].value.CellsToBeActivatedListValue? &&
              var items := p.ies[j].value.cellsToActivate;
              u.numCellsToActivate == |items| &&
              forall k :: 0 <= k < |items| ==>
                ActivatedCellOf(ZeroCell, items[k], CuConfigurationUpdateHandler, codec) == Ok(u.cellsToActivate[k])
  {
    if CuConfigurationUpdateOf(p, codec).Ok? {
      IesFromSingleList(CuConfigurationUpdateHandler, InitialState, p.ies, 0, j, codec);
      CellsFromMeaning(map[], p.ies[j].value.cellsToActivate, 0, CuConfigurationUpdateHandler, codec);
    }
  }

  /** DU_handle_gNB_CU_CONFIGURATION_UPDATE's decoding. */
  method DecodeCuConfigurationUpdate(p: Pdu, codec: IdentityCodec) returns (r: Result<CuConfigurationUpdate>)
    ensures r == CuConfigurationUpdateOf(p, codec)
  {
    if !IsCuConfigurationUpdate(p) {
      return Fatal(UnexpectedPdu);
    }
    var st := DecodeIes(CuConfigurationUpdateHandler, p.ies, codec);
    if st.Fatal? {
      return Fatal(st.fault);
    }
    if st.value.transactionId.None? {
      return Fatal(TransactionIdNotSent);
    }
    r := Ok(CuConfigurationUpdate(st.value.numCells, Exposed(st.value.slots, st.value.numCells)));
  }
}
