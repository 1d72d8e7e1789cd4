/**
 * The vocabulary of the DU side of the F1 Application Protocol (3GPP TS 38.473):
 * the abstract IE tree that the external ASN.1 codec turns into bytes and back,
 * the DU's internal request/response records, and the "abort" outcome that
 * every AssertFatal of the C code becomes.
 */
module F1apTypes {

  type Byte = bv8
  type Octets = seq<Byte>

  /** OCTET STRING (SIZE(3)), and the three-byte `rrc_ver` arrays of the C records. */
  type Octets3 = s: Octets | |s| == 3 witness [0, 0, 0]

  /** TransactionID ::= INTEGER (0..255) */
  type TransactionId = x: int | 0 <= x <= 255

  datatype Option<+T> = None | Some(value: T)

  // ---------------------------------------------------------------------------
  // Abort reasons and results
  // ---------------------------------------------------------------------------

  /** Why the DU aborts the process (one per AssertFatal that can fire). */
  datatype Fault =
    | NrbNotInTable(nrb: int)
    | UnknownMode
    | MibMissing
    | Sib1Missing
    | MandatoryIeMissing(missing: IeId)
    | UnknownCause
    | UnknownResetType
    | PartialResetNotImplemented
    | UnexpectedPdu
    | WrongCriticality(badCriticality: IeId)
    | WrongValue(badValue: IeId)
    | UnknownIe(unknown: IeId)
    | MalformedCellItem
    | UnsupportedCellExtension(unsupported: IeId)
    | UnknownCellExtension(unknownExtension: IeId)
    | MoreThanOneCellExtension
    | TransactionIdNotSent
    | SystemInformationNotImplemented
    | CellsToAddNotTested
    | CellsToDeleteNotTested
    | GnbDuIdNotHandled
    | CellsFailedToActivate
    | TnlAssociationsToSetup
    | TnlAssociationsFailed
    | DedicatedSiDeliveryNeeded
    | NotImplemented

  /** A value, or the abort that stopped its computation. */
  datatype Result<+T> = Ok(value: T) | Fatal(fault: Fault) {
    predicate IsFailure() {
      Fatal?
    }

    function PropagateFailure<U>(): Result<U>
      requires Fatal?
    {
      Fatal(fault)
    }

    function Extract(): T
      requires Ok?
    {
      value
    }
  }

  /** Applies `f` to the elements of `xs` in order; the first abort stops the walk. */
  function MapAll<A, B>(xs: seq<A>, f: A -> Result<B>): Result<seq<B>>
    decreases |xs|
  {
    if xs == [] then Ok([])
    else
      var y :- f(xs[0]);
      var ys :- MapAll(xs[1..], f);
      Ok([y] + ys)
  }

  /** A list mapped elementwise without a fault is exactly the list of the mapped values. */
  lemma MapAllOfAllOk<A, B>(xs: seq<A>, f: A -> Result<B>, ys: seq<B>)
    requires |ys| == |xs|
    requires forall k :: 0 <= k < |xs| ==> f(xs[k]) == Ok(ys[k])
    ensures MapAll(xs, f) == Ok(ys)
  {
    MapAllSucceeds(xs, f);
    assert MapAll(xs, f).value == ys;
  }

  /** MapAll succeeds exactly when `f` succeeds on every element, and then yields one result per element, in order. */
  lemma {:induction false} MapAllSucceeds<A, B>(xs: seq<A>, f: A -> Result<B>)
    ensures MapAll(xs, f).Ok? <==> forall k :: 0 <= k < |xs| ==> f(xs[k]).Ok?
    ensures MapAll(xs, f).Ok? ==>
              |MapAll(xs, f).value| == |xs| &&
              forall k :: 0 <= k < |xs| ==> f(xs[k]) == Ok(MapAll(xs, f).value[k])
  {
    if xs != [] {
      MapAllSucceeds(xs[1..], f);
      if f(xs[0]).Ok? && MapAll(xs[1..], f).Ok? {
        forall k | 0 <= k < |xs|
          ensures f(xs[k]) == Ok(MapAll(xs, f).value[k])
        {
          if k > 0 {
            assert xs[k] == xs[1..][k - 1];
          }
        }
      } else if f(xs[0]).Ok? {
        var k :| 0 <= k < |xs[1..]| && !f(xs[1..][k]).Ok?;
        assert xs[1..][k] == xs[k + 1];
      }
    }
  }

  /** The abort of MapAll is the one of the first element on which `f` aborts. */
  lemma {:induction false} MapAllFirstFault<A, B>(xs: seq<A>, f: A -> Result<B>, i: nat)
    requires i < |xs| && f(xs[i]).Fatal?
    requires forall k :: 0 <= k < i ==> f(xs[k]).Ok?
    ensures MapAll(xs, f) == Fatal(f(xs[i]).fault)
  {
    if i > 0 {
      assert xs[1..][i - 1] == xs[i];
      forall k | 0 <= k < i - 1
        ensures f(xs[1..][k]).Ok?
      {
        assert xs[1..][k] == xs[k + 1];
      }
      MapAllFirstFault(xs[1..], f, i - 1);
    }
  }

  // ---------------------------------------------------------------------------
  // The abstract IE tree (what f1ap_encode_pdu consumes and the decoder produces)
  // ---------------------------------------------------------------------------

  datatype Criticality = Reject | Ignore | Notify

  datatype MessageKind = InitiatingMessage | SuccessfulOutcome | UnsuccessfulOutcome

  datatype ProcedureCode =
    | ResetProcedure
    | F1SetupProcedure
    | ErrorIndicationProcedure
    | GnbDuConfigurationUpdateProcedure
    | GnbCuConfigurationUpdateProcedure
    | GnbDuResourceCoordinationProcedure
    | OtherProcedure(procedureCode: int)

  /** The `value.present` tag of the message body. */
  datatype MessageValue =
    | ResetMessage
    | ResetAcknowledgeMessage
    | F1SetupRequestMessage
    | F1SetupResponseMessage
    | F1SetupFailureMessage
    | GnbDuConfigurationUpdateMessage
    | GnbCuConfigurationUpdateMessage
    | GnbCuConfigurationUpdateAcknowledgeMessage
    | OtherMessage

  /** ProtocolIE-ID values named in the DU interface-management procedures; any other id is IdOther. */
  datatype IeId =
    | IdTransactionId
    | IdCause
    | IdResetType
    | IdGnbDuId
    | IdGnbDuName
    | IdGnbDuServedCellsList
    | IdGnbDuServedCellsItem
    | IdGnbDuRrcVersion
    | IdGnbCuName
    | IdGnbCuRrcVersion
    | IdCellsToBeActivatedList
    | IdCellsToBeActivatedListItem
    | IdServedCellsToModifyList
    | IdServedCellsToModifyItem
    | IdTaiSliceSupportList
    | IdLatestRrcVersionEnhanced
    | IdGnbCuSystemInformation
    | IdAvailablePlmnList
    | IdExtendedAvailablePlmnList
    | IdIabInfoIabDonorCu
    | IdAvailableSnpnIdList
    | IdOther(code: int)

  datatype BitString = BitString(buf: Octets, bitsUnused: nat)

  /** NR Cell Global Identity as carried in the IE tree. */
  datatype Nrcgi = Nrcgi(plmnIdentity: Octets, nrCellIdentity: BitString)

  /** Cause choice; CauseNothing and CauseExtension are the other `present` tags. */
  datatype Cause =
    | RadioNetworkCause(radioNetwork: int)
    | TransportCause(transport: int)
    | ProtocolCause(protocol: int)
    | MiscCause(misc: int)
    | CauseNothing
    | CauseExtension

  datatype ResetType = F1Interface | PartOfF1Interface | ResetTypeNothing | ResetTypeExtension

  /** SliceSupportItem: the S-NSSAI's SST and optional SD, as the integers handed to the octet-string helpers. */
  datatype SliceSupportItem = SliceSupportItem(sst: int, sd: Option<int>)

  /** ServedPLMNs-ItemExtIEs entry carrying a slice support list. */
  datatype PlmnItemExtension = PlmnItemExtension(id: IeId, criticality: Criticality, slices: seq<SliceSupportItem>)

  /** An empty `extensions` stands for an absent iE_Extensions container. */
  datatype ServedPlmnsItem = ServedPlmnsItem(plmnIdentity: Octets, extensions: seq<PlmnItemExtension>)

  datatype FreqBandItem = FreqBandItem(freqBandIndicatorNr: int)

  datatype NrFreqInfo = NrFreqInfo(nrArfcn: int, freqBandListNr: seq<FreqBandItem>)

  datatype TransmissionBandwidth = TransmissionBandwidth(nrScs: int, nrNrb: nat)

  datatype NrModeInfo =
    | FddMode(ulFreqInfo: NrFreqInfo, dlFreqInfo: NrFreqInfo,
              ulBandwidth: TransmissionBandwidth, dlBandwidth: TransmissionBandwidth)
    | TddMode(freqInfo: NrFreqInfo, bandwidth: TransmissionBandwidth)

  datatype ServedCellInformation = ServedCellInformation(
    nrcgi: Nrcgi,
    nrPci: int,
    fiveGsTac: Option<Octets3>,
    servedPlmns: seq<ServedPlmnsItem>,
    nrModeInfo: NrModeInfo,
    measurementTimingConfiguration: Octets)

  datatype DuSystemInformation = DuSystemInformation(mibMessage: Octets, sib1Message: Octets)

  datatype ServedCellsItem = ServedCellsItem(
    servedCellInformation: ServedCellInformation,
    systemInformation: Option<DuSystemInformation>)

  datatype ServedCellsToModifyItem = ServedCellsToModifyItem(
    oldNrcgi: Nrcgi,
    servedCellInformation: ServedCellInformation,
    systemInformation: Option<DuSystemInformation>)

  /** RRC-Version-ExtIEs entry: latest RRC version, enhanced (three octets). */
  datatype RrcVersionExtension = RrcVersionExtension(id: IeId, criticality: Criticality, latestRrcVersionEnhanced: Octets3)

  datatype RrcVersion = RrcVersion(latestRrcVersion: BitString, extensions: Option<seq<RrcVersionExtension>>)

  datatype SibItem = SibItem(sibType: int, sibMessage: Octets)

  /**
   * Cells-to-be-Activated-List-ItemExtIEs entry. Only the gNB-CU System Information
   * extension is ever read, so its SIB list is the only value modelled.
   */
  datatype CellExtension = CellExtension(id: IeId, criticality: Criticality, sibTypesToBeUpdated: seq<SibItem>)

  datatype CellsToBeActivatedItem = CellsToBeActivatedItem(
    nrcgi: Nrcgi,
    nrPci: Option<int>,
    extensions: Option<seq<CellExtension>>)

  /** The value of an IE: the union of the value types used by these procedures. */
  datatype IeValue =
    | TransactionIdValue(transactionId: TransactionId)
    | CauseValue(cause: Cause)
    | ResetTypeValue(resetType: ResetType)
    | GnbDuIdValue(gnbDuId: int)
    | NameValue(name: Octets)
    | ServedCellsListValue(servedCells: seq<Ie>)
    | ServedCellsItemValue(servedCell: ServedCellsItem)
    | RrcVersionValue(rrcVersion: RrcVersion)
    | CellsToBeActivatedListValue(cellsToActivate: seq<Ie>)
    | CellsToBeActivatedItemValue(cellToActivate: CellsToBeActivatedItem)
    | ServedCellsToModifyListValue(cellsToModify: seq<Ie>)
    | ServedCellsToModifyItemValue(cellToModify: ServedCellsToModifyItem)
    | OtherValue

  datatype Ie = Ie(id: IeId, criticality: Criticality, value: IeValue)

  /** F1AP-PDU: the message kind, the procedure, its criticality, the body's tag and its IE list. */
  datatype Pdu = Pdu(
    kind: MessageKind,
    procedureCode: ProcedureCode,
    criticality: Criticality,
    message: MessageValue,
    ies: seq<Ie>)

  /** The ids of an IE list, in order. */
  function IdsOf(ies: seq<Ie>): (ids: seq<IeId>)
    ensures |ids| == |ies|
    ensures forall k :: 0 <= k < |ies| ==> ids[k] == ies[k].id
  {
    seq(|ies|, k requires 0 <= k < |ies| => ies[k].id)
  }

  // ---------------------------------------------------------------------------
  // The DU's internal records (the f1ap_*_t structures)
  // ---------------------------------------------------------------------------

  datatype Plmn = Plmn(mcc: int, mnc: int, mncDigitLength: int)

  /** Helpers defined outside this file, taken as given functions. */
  datatype IdentityCodec = IdentityCodec(
    plmnToOctets: Plmn -> Octets,           // MCC_MNC_TO_PLMNID
    octetsToPlmn: Octets -> Plmn,           // TBCD_TO_MCC_MNC
    cellIdToBits: int -> BitString,         // NR_CELL_ID_TO_BIT_STRING
    bitsToCellId: BitString -> int)         // BIT_STRING_TO_NR_CELL_IDENTITY

  /** What the served-cell encoder reads besides the cell: the NRB table, whether an NR RRC context exists, and the identity helpers. */
  datatype CodecEnv = CodecEnv(nrbLut: seq<int>, nrRrcPresent: bool, codec: IdentityCodec)

  datatype Nssai = Nssai(sst: int, sd: int)
  datatype FreqInfo = FreqInfo(arfcn: int, band: int)
  datatype Bandwidth = Bandwidth(scs: int, nrb: int)
  datatype FddInfo = FddInfo(ulFreqInfo: FreqInfo, dlFreqInfo: FreqInfo, ulTbw: Bandwidth, dlTbw: Bandwidth)
  datatype TddInfo = TddInfo(freqInfo: FreqInfo, tbw: Bandwidth)
  datatype DuplexMode = ModeFdd | ModeTdd | ModeOther(mode: int)

  /** f1ap_served_cell_info_t; `tac` is the optional uint32 pointer. */
  datatype ServedCellInfo = ServedCellInfo(
    plmn: Plmn,
    nrCellId: int,
    nrPci: int,
    tac: Option<bv32>,
    mode: DuplexMode,
    fdd: FddInfo,
    tdd: TddInfo,
    nssai: seq<Nssai>,
    measurementTimingConfig: Octets)

  /** f1ap_gnb_du_system_info_t; the MIB and SIB1 pointers may be null. */
  datatype SystemInfo = SystemInfo(mib: Option<Octets>, sib1: Option<Octets>)

  datatype DuCell = DuCell(info: ServedCellInfo, sysInfo: Option<SystemInfo>)

  /** f1ap_setup_req_t */
  datatype SetupRequest = SetupRequest(gnbDuId: int, gnbDuName: Option<Octets>, cells: seq<DuCell>, rrcVer: Octets3)

  datatype CellToModify = CellToModify(oldPlmn: Plmn, oldNrCellId: int, cell: DuCell)

  datatype CellToDelete = CellToDelete(plmn: Plmn, nrCellId: int)

  /** f1ap_gnb_du_configuration_update_t */
  datatype DuConfigurationUpdate = DuConfigurationUpdate(
    transactionId: TransactionId,
    cellsToAdd: seq<DuCell>,
    cellsToModify: seq<CellToModify>,
    cellsToDelete: seq<CellToDelete>,
    gnbDuId: int)

  /** f1ap_reset_ack_t */
  datatype ResetAcknowledge = ResetAcknowledge(transactionId: TransactionId)

  /** f1ap_gnb_cu_configuration_update_acknowledge_t, the counters the sender inspects. */
  datatype CuConfigurationUpdateAcknowledge = CuConfigurationUpdateAcknowledge(
    numCellsFailedToBeActivated: int,
    noofTnlAssociationsToSetup: int,
    noofTnlAssociationsFailed: int,
    noofDedicatedSiDeliveryNeededUes: int)

  datatype CauseGroup = CauseRadioNetwork | CauseTransport | CauseProtocol | CauseMisc

  datatype ResetScope = ResetAll | ResetPartOfF1Interface

  /** f1ap_reset_t */
  datatype ResetRequest = ResetRequest(transactionId: TransactionId, cause: CauseGroup, causeValue: int, resetType: ResetScope)

  datatype SiContainer = SiContainer(sibType: int, container: Octets)

  /** One entry of `cells_to_activate[]`. */
  datatype ActivatedCell = ActivatedCell(plmn: Plmn, nrCellId: int, nrPci: int, numSi: int, si: seq<SiContainer>)

  /** The all-zero entry a freshly zeroed record holds. */
  const ZeroCell := ActivatedCell(Plmn(0, 0, 0), 0, 0, 0, [])

  /** f1ap_setup_resp_t: only the first `numCellsToActivate` cells are exposed. */
  datatype SetupResponse = SetupResponse(
    gnbCuName: Option<Octets>,
    rrcVer: Octets3,
    numCellsToActivate: nat,
    cellsToActivate: seq<ActivatedCell>)

  /** f1ap_gnb_cu_configuration_update_t */
  datatype CuConfigurationUpdate = CuConfigurationUpdate(numCellsToActivate: nat, cellsToActivate: seq<ActivatedCell>)
}
