/**
 * Domain encoders of the DU: the resource-block lookup (to_NRNRB), the served cell
 * information (encode_served_cell_info) with its tracking area code, slice list and
 * FDD/TDD choice, and the DU system information (encode_system_info).
 */
module CellCodec {
  import opened F1apTypes

  // ---------------------------------------------------------------------------
  // to_NRNRB
  // ---------------------------------------------------------------------------

  /** The first index at or after `from` where `lut` holds `nrb`. */
  function FirstIndexFrom(lut: seq<int>, nrb: int, from: nat): Option<nat>
    decreases |lut| - from
  {
    if from >= |lut| then None
    else if lut[from] == nrb then Some(from)
    else FirstIndexFrom(lut, nrb, from + 1)
  }

  lemma {:induction false} FirstIndexFromIsFirst(lut: seq<int>, nrb: int, from: nat)
    ensures FirstIndexFrom(lut, nrb, from).Some? ==>
              var k := FirstIndexFrom(lut, nrb, from).value;
              from <= k < |lut| && lut[k] == nrb && forall j :: from <= j < k ==> lut[j] != nrb
    ensures FirstIndexFrom(lut, nrb, from).None? ==> forall j :: from <= j < |lut| ==> lut[j] != nrb
    decreases |lut| - from
  {
    if from < |lut| && lut[from] != nrb {
      FirstIndexFromIsFirst(lut, nrb, from + 1);
    }
  }

  /** The NRNRB index of a resource-block count, as to_NRNRB computes it. */
  function NrbIndex(env: CodecEnv, nrb: int): Result<nat>
  {
    match FirstIndexFrom(env.nrbLut, nrb, 0)
    case Some(k) => Ok(k)
    case None => if !env.nrRrcPresent then Ok(0) else Fatal(NrbNotInTable(nrb))
  }

  /**
   * to_NRNRB yields the first table index holding the count; a count missing from the
   * table yields 0 while no NR RRC context exists and aborts once one does.
   */
  lemma NrbIndexIsFirstMatch(env: CodecEnv, nrb: int)
    ensures nrb in env.nrbLut ==>
              NrbIndex(env, nrb).Ok? &&
              NrbIndex(env, nrb).value < |env.nrbLut| &&
              env.nrbLut[NrbIndex(env, nrb).value] == nrb &&
              forall j :: 0 <= j < NrbIndex(env, nrb).value ==> env.nrbLut[j] != nrb
    ensures nrb !in env.nrbLut ==>
              NrbIndex(env, nrb) == if env.nrRrcPresent then Fatal(NrbNotInTable(nrb)) else Ok(0)
  {
    FirstIndexFromIsFirst(env.nrbLut, nrb, 0);
  }

  /** to_NRNRB: a linear search of the table. */
  method ToNrNrb(env: CodecEnv, nrb: int) returns (r: Result<nat>)
    ensures r == NrbIndex(env, nrb)
  {
    for i := 0 to |env.nrbLut|
      invariant FirstIndexFrom(env.nrbLut, nrb, 0) == FirstIndexFrom(env.nrbLut, nrb, i)
    {
      if env.nrbLut[i] == nrb {
        return Ok(i);
      }
    }
    if !env.nrRrcPresent {
      return Ok(0);
    }
    return Fatal(NrbNotInTable(nrb));
  }

  // ---------------------------------------------------------------------------
  // 5GS tracking area code
  // ---------------------------------------------------------------------------

  /** The last three bytes of htonl(tac): the low 24 bits, most significant byte first. */
  function TacOctets(tac: bv32): Octets3
  {
    [((tac >> 16) & 0xFF) as bv8, ((tac >> 8) & 0xFF) as bv8, (tac & 0xFF) as bv8]
  }

  /** Reading three TAC octets back into a 32-bit value, the missing top byte being zero. */
  function TacValue(o: Octets3): bv32
  {
    ((o[0] as bv32) << 16) | ((o[1] as bv32) << 8) | (o[2] as bv32)
  }

  /** The TAC octets keep exactly the low 24 bits: the top byte is dropped, nothing else is lost. */
  lemma TacKeepsLow24Bits(tac: bv32)
    ensures TacValue(TacOctets(tac)) == tac & 0xFF_FFFF
    ensures tac <= 0xFF_FFFF ==> TacValue(TacOctets(tac)) == tac
  {
  }

  /** Every three-octet string is the TAC encoding of its zero-extended value. */
  lemma TacOctetsOfValue(o: Octets3)
    ensures TacOctets(TacValue(o)) == o
  {
  }

  // ---------------------------------------------------------------------------
  // Slices, PLMN item, mode
  // ---------------------------------------------------------------------------

  /** The SD value meaning "no SD". */
  const NoSd: int := 0xFF_FFFF

  function SliceItemOf(n: Nssai): SliceSupportItem
  {
    SliceSupportItem(n.sst, if n.sd != NoSd then Some(n.sd) else None)
  }

  function SliceSupportItems(nssai: seq<Nssai>): seq<SliceSupportItem>
  {
    seq(|nssai|, k requires 0 <= k < |nssai| => SliceItemOf(nssai[k]))
  }

  function ServedPlmnsItemOf(slices: seq<SliceSupportItem>, c: ServedCellInfo, env: CodecEnv): ServedPlmnsItem
  {
    ServedPlmnsItem(
      env.codec.plmnToOctets(c.plmn),
      if |c.nssai| > 0 then [PlmnItemExtension(IdTaiSliceSupportList, Ignore, slices)] else [])
  }

  /** One frequency band per direction. */
  function FreqInfoOf(f: FreqInfo): NrFreqInfo
  {
    NrFreqInfo(f.arfcn, [FreqBandItem(f.band)])
  }

  function NrModeInfoOf(c: ServedCellInfo, env: CodecEnv): Result<NrModeInfo>
  {
    match c.mode
    case ModeFdd =>
      var ulNrb :- NrbIndex(env, c.fdd.ulTbw.nrb);
      var dlNrb :- NrbIndex(env, c.fdd.dlTbw.nrb);
      Ok(FddMode(FreqInfoOf(c.fdd.ulFreqInfo), FreqInfoOf(c.fdd.dlFreqInfo),
                 TransmissionBandwidth(c.fdd.ulTbw.scs, ulNrb),
                 TransmissionBandwidth(c.fdd.dlTbw.scs, dlNrb)))
    case ModeTdd =>
      var nrb :- NrbIndex(env, c.tdd.tbw.nrb);
      Ok(TddMode(FreqInfoOf(c.tdd.freqInfo), TransmissionBandwidth(c.tdd.tbw.scs, nrb)))
    case ModeOther(_) =>
      Fatal(UnknownMode)
  }

  /** encode_served_cell_info, as a value. */
  function ServedCellInformationOf(c: ServedCellInfo, env: CodecEnv): Result<ServedCellInformation>
  {
    var mode :- NrModeInfoOf(c, env);
    Ok(ServedCellInformation(
         Nrcgi(env.codec.plmnToOctets(c.plmn), env.codec.cellIdToBits(c.nrCellId)),
         c.nrPci,
         if c.tac.Some? then Some(TacOctets(c.tac.value)) else None,
         [ServedPlmnsItemOf(SliceSupportItems(c.nssai), c, env)],
         mode,
         c.measurementTimingConfig))
  }

  /** The 5GS TAC IE is present iff the cell has a TAC, and then holds its low 24 bits. */
  lemma ServedCellTac(c: ServedCellInfo, env: CodecEnv)
    requires ServedCellInformationOf(c, env).Ok?
    ensures ServedCellInformationOf(c, env).value.fiveGsTac.Some? <==> c.tac.Some?
    ensures c.tac.Some? ==>
              TacValue(ServedCellInformationOf(c, env).value.fiveGsTac.value) == c.tac.value & 0xFF_FFFF
  {
    if c.tac.Some? {
      TacKeepsLow24Bits(c.tac.value);
    }
  }

  /**
   * One served PLMN; the slice extension is attached iff the cell has slices, with one
   * item per slice in input order, and an item carries an SD iff the slice's SD is not 0xFFFFFF.
   */
  lemma ServedCellSlices(c: ServedCellInfo, env: CodecEnv)
    requires ServedCellInformationOf(c, env).Ok?
    ensures var plmns := ServedCellInformationOf(c, env).value.servedPlmns;
            |plmns| == 1 &&
            plmns[0].plmnIdentity == env.codec.plmnToOctets(c.plmn) &&
            (|plmns[0].extensions| > 0 <==> |c.nssai| > 0) &&
            (|c.nssai| > 0 ==>
               |plmns[0].extensions| == 1 &&
               plmns[0].extensions[0].id == IdTaiSliceSupportList &&
               plmns[0].extensions[0].criticality == Ignore &&
               |plmns[0].extensions[0].slices| == |c.nssai| &&
               forall k :: 0 <= k < |c.nssai| ==>
                 plmns[0].extensions[0].slices[k].sst == c.nssai[k].sst &&
                 (plmns[0].extensions[0].slices[k].sd.Some? <==> c.nssai[k].sd != NoSd) &&
                 (plmns[0].extensions[0].slices[k].sd.Some? ==> plmns[0].extensions[0].slices[k].sd.value == c.nssai[k].sd))
  {
  }

  /**
   * FDD fills only the FDD choice and TDD only the TDD choice, each band list holds one
   * band, the subcarrier spacing is copied and the resource-block count goes through
   * to_NRNRB; any other mode aborts.
   */
  lemma ServedCellMode(c: ServedCellInfo, env: CodecEnv)
    ensures c.mode.ModeOther? ==> ServedCellInformationOf(c, env) == Fatal(UnknownMode)
    ensures c.mode.ModeFdd? ==>
              (ServedCellInformationOf(c, env).Ok? <==>
                 NrbIndex(env, c.fdd.ulTbw.nrb).Ok? && NrbIndex(env, c.fdd.dlTbw.nrb).Ok?)
    ensures c.mode.ModeFdd? && ServedCellInformationOf(c, env).Ok? ==>
              var m := ServedCellInformationOf(c, env).value.nrModeInfo;
              m.FddMode? &&
              m.ulFreqInfo.nrArfcn == c.fdd.ulFreqInfo.arfcn &&
              m.ulFreqInfo.freqBandListNr == [FreqBandItem(c.fdd.ulFreqInfo.band)] &&
              m.dlFreqInfo.nrArfcn == c.fdd.dlFreqInfo.arfcn &&
              m.dlFreqInfo.freqBandListNr == [FreqBandItem(c.fdd.dlFreqInfo.band)] &&
              m.ulBandwidth.nrScs == c.fdd.ulTbw.scs &&
              Ok(m.ulBandwidth.nrNrb) == NrbIndex(env, c.fdd.ulTbw.nrb) &&
              m.dlBandwidth.nrScs == c.fdd.dlTbw.scs &&
              Ok(m.dlBandwidth.nrNrb) == NrbIndex(env, c.fdd.dlTbw.nrb)
    ensures c.mode.ModeTdd? ==>
              (ServedCellInformationOf(c, env).Ok? <==> NrbIndex(env, c.tdd.tbw.nrb).Ok?)
    ensures c.mode.ModeTdd? && ServedCellInformationOf(c, env).Ok? ==>
              var m := ServedCellInformationOf(c, env).value.nrModeInfo;
              m.TddMode? &&
              m.freqInfo.nrArfcn == c.tdd.freqInfo.arfcn &&
              m.freqInfo.freqBandListNr == [FreqBandItem(c.tdd.freqInfo.band)] &&
              m.bandwidth.nrScs == c.tdd.tbw.scs &&
              Ok(m.bandwidth.nrNrb) == NrbIndex(env, c.tdd.tbw.nrb)
  {
  }

  /** encode_served_cell_info: the slice list is grown one item per slice. */
  method EncodeServedCellInfo(c: ServedCellInfo, env: CodecEnv) returns (r: Result<ServedCellInformation>)
    ensures r == ServedCellInformationOf(c, env)
  {
    var nrcgi := Nrcgi(env.codec.plmnToOctets(c.plmn), env.codec.cellIdToBits(c.nrCellId));
    var fiveGsTac: Option<Octets3> := None;
    if c.tac.Some? {
      fiveGsTac := Some(TacOctets(c.tac.value));
    }

    var slices: seq<SliceSupportItem> := [];
    if |c.nssai| > 0 {
      var s := 0;
      while s < |c.nssai|
        invariant 0 <= s <= |c.nssai|
        invariant |slices| == s
        invariant forall k :: 0 <= k < s ==> slices[k] == SliceItemOf(c.nssai[k])
      {
        slices := slices + [SliceItemOf(c.nssai[s])];
        s := s + 1;
      }
    }
    assert slices == SliceSupportItems(c.nssai);
    var servedPlmn := ServedPlmnsItemOf(slices, c, env);

    var mode: NrModeInfo;
    match c.mode {
      case ModeFdd =>
        var ulNrb :- ToNrNrb(env, c.fdd.ulTbw.nrb);
        var dlNrb :- ToNrNrb(env, c.fdd.dlTbw.nrb);
        mode := FddMode(FreqInfoOf(c.fdd.ulFreqInfo), FreqInfoOf(c.fdd.dlFreqInfo),
                        TransmissionBandwidth(c.fdd.ulTbw.scs, ulNrb),
                        TransmissionBandwidth(c.fdd.dlTbw.scs, dlNrb));
      case ModeTdd =>
        var nrb :- ToNrNrb(env, c.tdd.tbw.nrb);
        mode := TddMode(FreqInfoOf(c.tdd.freqInfo), TransmissionBandwidth(c.tdd.tbw.scs, nrb));
      case ModeOther(_) =>
        return Fatal(UnknownMode);
    }

    r := Ok(ServedCellInformation(nrcgi, c.nrPci, fiveGsTac, [servedPlmn], mode, c.measurementTimingConfig));
  }

  // ---------------------------------------------------------------------------
  // encode_system_info
  // ---------------------------------------------------------------------------

  /** encode_system_info: absent stays absent; otherwise MIB and SIB1 are both required. */
  function SystemInformationOf(s: Option<SystemInfo>): Result<Option<DuSystemInformation>>
  {
    match s
    case None => Ok(None)
    case Some(info) =>
      if info.mib.None? then Fatal(MibMissing)
      else if info.sib1.None? then Fatal(Sib1Missing)
      else Ok(Some(DuSystemInformation(info.mib.value, info.sib1.value)))
  }

  /** System information is encoded iff both MIB and SIB1 are present, and then copied verbatim. */
  lemma SystemInformationNeedsMibAndSib1(s: Option<SystemInfo>)
    ensures s.None? ==> SystemInformationOf(s) == Ok(None)
    ensures s.Some? ==>
              (SystemInformationOf(s).Ok? <==> s.value.mib.Some? && s.value.sib1.Some?)
    ensures s.Some? && SystemInformationOf(s).Ok? ==>
              SystemInformationOf(s).value == Some(DuSystemInformation(s.value.mib.value, s.value.sib1.value))
    ensures s.Some? && s.value.mib.None? ==> SystemInformationOf(s) == Fatal(MibMissing)
  {
  }
}
