/**
 * Decoding of a Cells-to-be-Activated list, shared by the F1 Setup Response and the
 * gNB-CU Configuration Update handlers.
 *
 * Both handlers write the decoded cells into a zero-initialised C array indexed by the
 * cell's position in the list. A later list IE in the same message writes the same slots
 * again, and a field that the later item does not set keeps its earlier value. The array
 * is modelled as a map from slot index to cell, where a missing index is the all-zero cell.
 */
module ActivatedCells {
  import opened F1apTypes

  /** Which handler decodes the list: only the F1 Setup Response copies nRPCI before the extensions. */
  datatype Handler = SetupResponseHandler | CuConfigurationUpdateHandler

  /** The cells_to_activate array: the written slots; every other slot is still all zero. */
  type Slots = map<nat, ActivatedCell>

  function Slot(slots: Slots, i: nat): ActivatedCell
  {
    if i in slots then slots[i] else ZeroCell
  }

  /** The first `n` slots, which is what the handler hands on as cells_to_activate. */
  function Exposed(slots: Slots, n: nat): (cells: seq<ActivatedCell>)
    ensures |cells| == n
    ensures forall k :: 0 <= k < n ==> cells[k] == Slot(slots, k)
  {
    seq(n, k requires 0 <= k < n => Slot(slots, k))
  }

  // ---------------------------------------------------------------------------
  // System information copy
  // ---------------------------------------------------------------------------

  function SiContainerOf(item: SibItem): SiContainer
  {
    SiContainer(item.sibType, item.sibMessage)
  }

  /**
   * The SI arrays after SI message k of `sibs` is copied into slot k: the first |sibs|
   * slots hold the new messages, the remaining slots keep what they held.
   */
  function Overlay(prev: seq<SiContainer>, sibs: seq<SibItem>): seq<SiContainer>
  {
    seq(if |sibs| >= |prev| then |sibs| else |prev|,
        k requires 0 <= k < (if |sibs| >= |prev| then |sibs| else |prev|) =>
          if k < |sibs| then SiContainerOf(sibs[k]) else prev[k])
  }

  /** The SI copy loop of the gNB-CU System Information extension. */
  method CopySi(prev: seq<SiContainer>, sibs: seq<SibItem>) returns (si: seq<SiContainer>)
    ensures si == Overlay(prev, sibs)
  {
    si := prev;
    for k := 0 to |sibs|
      invariant |si| == (if k >= |prev| then k else |prev|)
      invariant forall j :: 0 <= j < k ==> si[j] == SiContainerOf(sibs[j])
      invariant forall j :: k <= j < |prev| ==> si[j] == prev[j]
    {
      if k < |si| {
        si := si[k := SiContainerOf(sibs[k])];
      } else {
        si := si + [SiContainerOf(sibs[k])];
      }
    }
  }

  // ---------------------------------------------------------------------------
  // One list item
  // ---------------------------------------------------------------------------

  /** What the SI case stores as nrpci: the item's nRPCI, or 0 when the item has none. */
  function PciOrZero(item: CellsToBeActivatedItem): int
  {
    if item.nrPci.Some? then item.nrPci.value else 0
  }

  /** One pass of the extension switch; `count` is the number of extensions of the item. */
  function ExtensionStep(cell: ActivatedCell, item: CellsToBeActivatedItem, count: nat, e: CellExtension): Result<ActivatedCell>
  {
    match e.id
    case IdGnbCuSystemInformation =>
      if count != 1 then Fatal(MoreThanOneCellExtension)
      else Ok(cell.(nrPci := PciOrZero(item), numSi := |e.sibTypesToBeUpdated|,
                    si := Overlay(cell.si, e.sibTypesToBeUpdated)))
    case IdAvailablePlmnList => Fatal(UnsupportedCellExtension(e.id))
    case IdExtendedAvailablePlmnList => Fatal(UnsupportedCellExtension(e.id))
    case IdIabInfoIabDonorCu => Fatal(UnsupportedCellExtension(e.id))
    case IdAvailableSnpnIdList => Fatal(UnsupportedCellExtension(e.id))
    case _ => Fatal(UnknownCellExtension(e.id))
  }

  /** The extension loop from extension `i` on. */
  function ExtensionsFrom(cell: ActivatedCell, item: CellsToBeActivatedItem, exts: seq<CellExtension>, i: nat): Result<ActivatedCell>
    requires i <= |exts|
    decreases |exts| - i
  {
    if i == |exts| then Ok(cell)
    else
      var next :- ExtensionStep(cell, item, |exts|, exts[i]);
      ExtensionsFrom(next, item, exts, i + 1)
  }

  /** The cell an item of the list leaves in its slot, whose previous content is `prev`. */
  function ActivatedCellOf(prev: ActivatedCell, itemIe: Ie, handler: Handler, codec: IdentityCodec): Result<ActivatedCell>
  {
    if itemIe.id != IdCellsToBeActivatedListItem then Fatal(MalformedCellItem)
    else if itemIe.criticality != Reject then Fatal(WrongCriticality(IdCellsToBeActivatedListItem))
    else if !itemIe.value.CellsToBeActivatedItemValue? then Fatal(WrongValue(IdCellsToBeActivatedListItem))
    else
      var item := itemIe.value.cellToActivate;
      var named := prev.(plmn := codec.octetsToPlmn(item.nrcgi.plmnIdentity),
                         nrCellId := codec.bitsToCellId(item.nrcgi.nrCellIdentity));
      var withPci := if handler == SetupResponseHandler && item.nrPci.Some? then named.(nrPci := item.nrPci.value) else named;
      if item.extensions.None? then Ok(withPci)
      else ExtensionsFrom(withPci, item, item.extensions.value, 0)
  }

  /** The extension lists the handlers accept: none at all, or exactly one gNB-CU System Information. */
  predicate AcceptedExtensions(exts: Option<seq<CellExtension>>)
  {
    exts.None? || |exts.value| == 0 || (|exts.value| == 1 && exts.value[0].id == IdGnbCuSystemInformation)
  }

  /** The fault an item with extensions `exts` aborts with, when it does. */
  function ExtensionFault(exts: seq<CellExtension>): Fault
    requires |exts| > 0
  {
    match exts[0].id
    case IdGnbCuSystemInformation => MoreThanOneCellExtension
    case IdAvailablePlmnList => UnsupportedCellExtension(exts[0].id)
    case IdExtendedAvailablePlmnList => UnsupportedCellExtension(exts[0].id)
    case IdIabInfoIabDonorCu => UnsupportedCellExtension(exts[0].id)
    case IdAvailableSnpnIdList => UnsupportedCellExtension(exts[0].id)
    case _ => UnknownCellExtension(exts[0].id)
  }

  /**
   * An item decodes iff it is a Cells-to-be-Activated-List-Item IE with criticality reject
   * whose extensions are accepted; an item with any other extension list aborts with the
   * fault of its first extension. A decoded cell carries the PLMN and cell id of its NRCGI.
   * With the System Information extension it takes nRPCI (or 0), the SI count and the SI
   * messages over the front of the old SI slots. Without it, nrpci is nRPCI in the
   * F1 Setup Response when nRPCI is present and otherwise the slot's old value, and the
   * SI fields are the slot's old ones.
   */
  lemma {:induction false} ActivatedCellOfMeaning(prev: ActivatedCell, itemIe: Ie, handler: Handler, codec: IdentityCodec)
    ensures ActivatedCellOf(prev, itemIe, handler, codec).Ok? <==>
              itemIe.id == IdCellsToBeActivatedListItem && itemIe.criticality == Reject &&
              itemIe.value.CellsToBeActivatedItemValue? &&
              AcceptedExtensions(itemIe.value.cellToActivate.extensions)
    ensures itemIe.id == IdCellsToBeActivatedListItem && itemIe.criticality == Reject &&
            itemIe.value.CellsToBeActivatedItemValue? &&
            !AcceptedExtensions(itemIe.value.cellToActivate.extensions) ==>
              ActivatedCellOf(prev, itemIe, handler, codec) ==
                Fatal(ExtensionFault(itemIe.value.cellToActivate.extensions.value))
    ensures ActivatedCellOf(prev, itemIe, handler, codec).Ok? ==>
              var c := ActivatedCellOf(prev, itemIe, handler, codec).value;
              var item := itemIe.value.cellToActivate;
              c.plmn == codec.octetsToPlmn(item.nrcgi.plmnIdentity) &&
              c.nrCellId == codec.bitsToCellId(item.nrcgi.nrCellIdentity) &&
              if item.extensions.Some? && |item.extensions.value| == 1 then
                var sibs := item.extensions.value[0].sibTypesToBeUpdated;
                c.nrPci == PciOrZero(item) && c.numSi == |sibs| &&
                |c.si| >= |sibs| && |c.si| >= |prev.si| &&
                (forall k :: 0 <= k < |sibs| ==> c.si[k] == SiContainerOf(sibs[k])) &&
                (forall k :: |sibs| <= k < |prev.si| ==> c.si[k] == prev.si[k])
              else
                c.nrPci == (if handler == SetupResponseHandler && item.nrPci.Some? then item.nrPci.value else prev.nrPci) &&
                c.numSi == prev.numSi && c.si == prev.si
  {
    if itemIe.id == IdCellsToBeActivatedListItem && itemIe.criticality == Reject &&
       itemIe.value.CellsToBeActivatedItemValue? {
      var item := itemIe.value.cellToActivate;
      var named := prev.(plmn := codec.octetsToPlmn(item.nrcgi.plmnIdentity),
                         nrCellId := codec.bitsToCellId(item.nrcgi.nrCellIdentity));
      var withPci := if handler == SetupResponseHandler && item.nrPci.Some? then named.(nrPci := item.nrPci.value) else named;
      if item.extensions.Some? && |item.extensions.value| > 0 {
        var exts := item.extensions.value;
        var step := ExtensionStep(withPci, item, |exts|, exts[0]);
        assert ExtensionsFrom(withPci, item, exts, 0) == if step.Fatal? then Fatal(step.fault) else ExtensionsFrom(step.value, item, exts, 1);
        if step.Ok? {
          assert ExtensionsFrom(step.value, item, exts, 1) == Ok(step.value);
        }
      }
    }
  }

  /** The per-item decoding of both handlers, with the extension loop and the SI copy loop. */
  method DecodeActivatedCell(prev: ActivatedCell, itemIe: Ie, handler: Handler, codec: IdentityCodec) returns (r: Result<ActivatedCell>)
    ensures r == ActivatedCellOf(prev, itemIe, handler, codec)
  {
    if itemIe.id != IdCellsToBeActivatedListItem {
      return Fatal(MalformedCellItem);
    }
    if itemIe.criticality != Reject {
      return Fatal(WrongCriticality(IdCellsToBeActivatedListItem));
    }
    if !itemIe.value.CellsToBeActivatedItemValue? {
      return Fatal(WrongValue(IdCellsToBeActivatedListItem));
    }
    var item := itemIe.value.cellToActivate;
    var cell := prev.(plmn := codec.octetsToPlmn(item.nrcgi.plmnIdentity),
                      nrCellId := codec.bitsToCellId(item.nrcgi.nrCellIdentity));
    if handler == SetupResponseHandler && item.nrPci.Some? {
      cell := cell.(nrPci := item.nrPci.value);
    }
    if item.extensions.None? {
      return Ok(cell);
    }
    var exts := item.extensions.value;
    ghost var start := cell;
    for cnt := 0 to |exts|
      invariant ExtensionsFrom(start, item, exts, 0) == ExtensionsFrom(cell, item, exts, cnt)
    {
      var e := exts[cnt];
      match e.id {
        case IdGnbCuSystemInformation =>
          cell := cell.(nrPci := if item.nrPci.Some? then item.nrPci.value else 0,
                        numSi := |e.sibTypesToBeUpdated|);
          if |exts| != 1 {
            return Fatal(MoreThanOneCellExtension);
          }
          var si := CopySi(cell.si, e.sibTypesToBeUpdated);
          cell := cell.(si := si);
        case IdAvailablePlmnList =>
          return Fatal(UnsupportedCellExtension(e.id));
        case IdExtendedAvailablePlmnList =>
          return Fatal(UnsupportedCellExtension(e.id));
        case IdIabInfoIabDonorCu =>
          return Fatal(UnsupportedCellExtension(e.id));
        case IdAvailableSnpnIdList =>
          return Fatal(UnsupportedCellExtension(e.id));
        case _ =>
          return Fatal(UnknownCellExtension(e.id));
      }
    }
    r := Ok(cell);
  }

  // ---------------------------------------------------------------------------
  // The whole list
  // ---------------------------------------------------------------------------

  /** The loop over the list from item `i` on, item k writing slot k. */
  function CellsFrom(slots: Slots, items: seq<Ie>, i: nat, handler: Handler, codec: IdentityCodec): Result<Slots>
    requires i <= |items|
    decreases |items| - i
  {
    if i == |items| then Ok(slots)
    else
      var cell :- ActivatedCellOf(Slot(slots, i), items[i], handler, codec);
      CellsFrom(slots[i := cell], items, i + 1, handler, codec)
  }

  /**
   * The list decodes iff every item from `i` on decodes against its slot's old content;
   * then slot k holds item k decoded over the old slot k, and every other slot is unchanged.
   */
  lemma {:induction false} CellsFromMeaning(slots: Slots, items: seq<Ie>, i: nat, handler: Handler, codec: IdentityCodec)
    requires i <= |items|
    ensures CellsFrom(slots, items, i, handler, codec).Ok? <==>
              forall k :: i <= k < |items| ==> ActivatedCellOf(Slot(slots, k), items[k], handler, codec).Ok?
    ensures CellsFrom(slots, items, i, handler, codec).Ok? ==>
              var after := CellsFrom(slots, items, i, handler, codec).value;
              (forall k: nat :: i <= k < |items| ==>
                 ActivatedCellOf(Slot(slots, k), items[k], handler, codec) == Ok(Slot(after, k))) &&
              (forall k: nat :: k < i || |items| <= k ==> Slot(after, k) == Slot(slots, k))
    decreases |items| - i
  {
    if i < |items| {
      var c := ActivatedCellOf(Slot(slots, i), items[i], handler, codec);
      if c.Ok? {
        var next := slots[i := c.value];
        CellsFromMeaning(next, items, i + 1, handler, codec);
        assert forall k: nat :: k != i ==> Slot(next, k) == Slot(slots, k);
        assert Slot(next, i) == c.value;
      }
    }
  }

  /** The list loop of both handlers. */
  method DecodeCellsToActivate(slots: Slots, items: seq<Ie>, handler: Handler, codec: IdentityCodec) returns (r: Result<Slots>)
    ensures r == CellsFrom(slots, items, 0, handler, codec)
  {
    var current: Slots := slots;
    for i := 0 to |items|
      invariant CellsFrom(slots, items, 0, handler, codec) == CellsFrom(current, items, i, handler, codec)
    {
      var cell := DecodeActivatedCell(Slot(current, i), items[i], handler, codec);
      if cell.Fatal? {
        return Fatal(cell.fault);
      }
      current := current[i := cell.value];
    }
    r := Ok(current);
  }
}
