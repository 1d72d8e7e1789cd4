# F1AP interface management, gNB-DU side

This project models the DU half of the OpenAirInterface F1AP interface-management
procedures in `openair2/F1AP/f1ap_du_interface_management.c`, and proves properties of
the model in Dafny:

- **Reset.** `DU_handle_RESET` decodes a CU-initiated F1 Reset and hands it on.
  `DU_send_RESET_ACKNOWLEDGE` answers it with the same transaction identifier.
- **F1 Setup.** `DU_send_F1_SETUP_REQUEST` builds the F1 Setup Request from the DU
  configuration. This covers the served-cell information (`encode_served_cell_info`),
  the system information (`encode_system_info`), the bandwidth lookup (`to_NRNRB`) and
  the RRC-version bitmap. `DU_handle_F1_SETUP_RESPONSE` and `DU_handle_F1_SETUP_FAILURE`
  decode the CU's answer.
- **gNB-DU Configuration Update.** `DU_send_gNB_DU_CONFIGURATION_UPDATE` sends it.
- **gNB-CU Configuration Update.** `DU_handle_gNB_CU_CONFIGURATION_UPDATE` decodes it
  and `DU_send_gNB_CU_CONFIGURATION_UPDATE_ACKNOWLEDGE` acknowledges it.
- **Stubs.** The entry points whose whole body is an abort.

Every `AssertFatal` of the source is a `Fatal(fault)` result. The model therefore shows
exactly which inputs make the DU abort, and for which fault.

An F1AP PDU is a datatype: the message kind, the procedure code, the criticality, the
message type and the sequence of protocol IEs with their ids, criticalities and values.
The ASN.1 PER encoder is a parameter `encode` that may fail. The SCTP data requests the
senders queue are the `outbox` of the `DuInterface.DuF1ap` object. The messages the
handlers pass on to the MAC, RRC or gNB application are its `events`.

Modules:

- `F1apTypes` (`f1ap_types.dfy`): the F1AP PDU and IE tree, the DU's internal records,
  the `Result` type with the abort causes, and `MapAll`.
- `CellCodec` (`cell_codec.dfy`): `to_NRNRB`, the TAC octets, the served-cell
  information and the DU system information.
- `Outbound` (`outbound.dfy`): the PDUs the DU sends, each as a function with the
  loop-based builder that computes it.
- `ActivatedCells` (`activated_cells.dfy`): decoding the Cells to be Activated list,
  which both inbound handlers share, into the `cells_to_activate` slots.
- `Inbound` (`inbound.dfy`): IE lookup by id, the Reset and the F1 Setup Failure.
- `ActivationHandlers` (`activation_handlers.dfy`): the IE loops of the F1 Setup
  Response and gNB-CU Configuration Update handlers.
- `DuInterface` (`du_interface.dfy`): the entry points as methods of the `DuF1ap` class,
  which update its outbox and events.

Each loop of the source is a method proved equal to a specification function. The
lemmas then state what the source promises about that function.

## Model

| member | source | states |
|---|---|---|
| CellCodec.NrbIndexIsFirstMatch | openair2/F1AP/f1ap_du_interface_management.c:42-51 | when the bandwidth is in the lookup table, the result is the index of its first occurrence; otherwise the DU aborts when the RRC instance exists and returns 0 when it does not |
| CellCodec.ToNrNrb | openair2/F1AP/f1ap_du_interface_management.c:42-51 | the linear search over the table returns exactly the index that NrbIndex defines |
| CellCodec.TacKeepsLow24Bits | openair2/F1AP/f1ap_du_interface_management.c:196-201 | the three TAC octets, read back big-endian, are the low 24 bits of the TAC, so a TAC that fits in 24 bits is kept unchanged |
| CellCodec.TacOctetsOfValue | openair2/F1AP/f1ap_du_interface_management.c:196-201 | every three-octet TAC is the encoding of its own value, so the encoding loses nothing in 24 bits |
| CellCodec.ServedCellTac | openair2/F1AP/f1ap_du_interface_management.c:196-201 | the 5GS TAC is present exactly when the cell has a TAC, and then carries its low 24 bits |
| CellCodec.ServedCellSlices | openair2/F1AP/f1ap_du_interface_management.c:209-232 | there is one served PLMN with the cell's PLMN; the slice extension is there exactly when the cell has slices; it lists them in order with their SST; an SD is present exactly when it is not the 0xffffff "no SD" value |
| CellCodec.ServedCellMode | openair2/F1AP/f1ap_du_interface_management.c:234-297 | an FDD or TDD cell encodes when its bandwidths are found in the table, with ARFCNs, one band each, SCS and NRB taken from the cell; any other mode aborts |
| CellCodec.EncodeServedCellInfo | openair2/F1AP/f1ap_du_interface_management.c:187-305 | the imperative encoding, with its slice loop, equals the served-cell information function |
| CellCodec.SystemInformationNeedsMibAndSib1 | openair2/F1AP/f1ap_du_interface_management.c:307-322 | no system information gives none; present system information encodes when both MIB and SIB1 are there, carries them unchanged, and aborts first on a missing MIB |
| Outbound.RrcVersionBitmapBits | openair2/F1AP/f1ap_du_interface_management.c:390-406 | bit i of the Latest RRC Version bitmap is set exactly when RRC version octet i is nonzero, and no higher bit is set |
| Outbound.F1SetupRequestBuilds | openair2/F1AP/f1ap_du_interface_management.c:366-388 | the request is built exactly when every configured served cell encodes |
| Outbound.F1SetupRequestIeOrder | openair2/F1AP/f1ap_du_interface_management.c:325-419 | a built request is an initiating F1 Setup message with criticality reject whose IEs are, in order, Transaction ID, gNB-DU ID, the name only when there is one, the served-cells list and the RRC version, with the allocated transaction id and the DU's id |
| Outbound.F1SetupRequestServedCells | openair2/F1AP/f1ap_du_interface_management.c:366-388 | the served-cells list has one item per configured cell, in order; the first cell that fails to encode decides the fault |
| Outbound.F1SetupRequestRrcVersion | openair2/F1AP/f1ap_du_interface_management.c:390-419 | the RRC version IE is a one-octet bit string with 5 unused bits whose bits mirror the nonzero version octets, and it has one extension carrying the three octets |
| Outbound.BuildF1SetupRequest | openair2/F1AP/f1ap_du_interface_management.c:325-419 | the builder with its cell and bitmap loops produces exactly the F1 Setup Request function's result |
| Outbound.DuConfigurationUpdateShape | openair2/F1AP/f1ap_du_interface_management.c:638-735 | cells to add abort first; otherwise the update builds exactly when every modified cell encodes, no cell is deleted and the gNB-DU ID is 0; the IEs are the Transaction ID and, for a non-empty list, the cells to modify in order, each with its old NR CGI |
| Outbound.BuildDuConfigurationUpdate | openair2/F1AP/f1ap_du_interface_management.c:638-735 | the builder with its modify loop produces exactly the configuration-update function's result |
| Outbound.CuConfigurationUpdateAcknowledgeShape | openair2/F1AP/f1ap_du_interface_management.c:914-947 | the acknowledgement is built exactly when all four failure and TNL counters are zero, and it carries only the Transaction ID |
| Inbound.FirstIeFromIsFirst | openair2/F1AP/f1ap_du_interface_management.c:71-72 | the IE lookup finds an IE exactly when one with that id exists, and returns the first one |
| Inbound.FindIe | openair2/F1AP/f1ap_du_interface_management.c:71-72 | the search loop returns exactly the first-match lookup |
| Inbound.MandatoryIeMeaning | openair2/F1AP/f1ap_du_interface_management.c:71-77 | a mandatory IE is found exactly when its id occurs, and is then the first IE with that id; otherwise the DU aborts naming the missing id |
| Inbound.CauseRoundTrip | openair2/F1AP/f1ap_du_interface_management.c:78-102 | every cause group except "nothing" and the extension is accepted, and the cause read back from its group and value is the received cause, in both directions |
| Inbound.ResetOfMeaning | openair2/F1AP/f1ap_du_interface_management.c:53-126 | a Reset is accepted exactly when its Transaction ID, Cause and F1-interface reset type are present and well formed; the record then holds the first Transaction ID and Cause; a missing Transaction ID aborts |
| Inbound.ResetAcknowledgeEchoesReset | openair2/F1AP/f1ap_du_interface_management.c:128-150 | the acknowledgement of a decoded Reset carries the Reset's own transaction identifier |
| Inbound.DecodeReset | openair2/F1AP/f1ap_du_interface_management.c:53-126 | the imperative decoding of a Reset equals the Reset function |
| Inbound.F1SetupFailureNeedsTransactionAndCause | openair2/F1AP/f1ap_du_interface_management.c:612-632 | an F1 Setup Failure is accepted exactly when it has a Transaction ID and a Cause, and otherwise aborts on the first one missing |
| ActivatedCells.CopySi | openair2/F1AP/f1ap_du_interface_management.c:546-562 | the SIB copy loop writes the containers of the received SIB items over the first slots and leaves the rest of the earlier containers |
| ActivatedCells.ActivatedCellOfMeaning | openair2/F1AP/f1ap_du_interface_management.c:500-586 | a list item decodes exactly when its id, criticality and value type are right and its extensions are acceptable (none, or one gNB-CU System Information); the PLMN and cell id come from the NR CGI; with SI, the PCI, SI count and containers come from the item; without SI, the earlier slot's values are kept |
| ActivatedCells.DecodeActivatedCell | openair2/F1AP/f1ap_du_interface_management.c:500-586 | the imperative decoding of one item, with its extension loop, equals the item function |
| ActivatedCells.CellsFromMeaning | openair2/F1AP/f1ap_du_interface_management.c:497-587 | the list decodes exactly when every item decodes against the slot of the same index; slot k then holds item k's cell and every other slot is unchanged |
| ActivatedCells.DecodeCellsToActivate | openair2/F1AP/f1ap_du_interface_management.c:497-587 | the list loop equals the list function |
| ActivationHandlers.IesFromCriticality | openair2/F1AP/f1ap_du_interface_management.c:449-596 | when the IE loop succeeds, every IE had a known id and the criticality that id requires |
| ActivationHandlers.IesFromFrame | openair2/F1AP/f1ap_du_interface_management.c:449-596 | a transaction id is recorded exactly when a Transaction ID IE occurs; the name, RRC version and cells are left unchanged when no IE sets them |
| ActivationHandlers.IesFromSingleList | openair2/F1AP/f1ap_du_interface_management.c:492-590 | with one Cells to be Activated list, the cell count is that list's length and the slots are the list's decoding |
| ActivationHandlers.DecodeIes | openair2/F1AP/f1ap_du_interface_management.c:449-596 | the IE loop of both handlers equals the IE fold |
| ActivationHandlers.F1SetupResponseMeaning | openair2/F1AP/f1ap_du_interface_management.c:432-609 | anything but a successful F1 Setup Response aborts; so does a missing Transaction ID; an accepted response has all IE criticalities right, one cell per count and no SI; its name, RRC version and cells are empty or zero when absent |
| ActivationHandlers.F1SetupResponseSingleList | openair2/F1AP/f1ap_du_interface_management.c:492-604 | with one cells list, cell k of the response is item k decoded against a zeroed cell |
| ActivationHandlers.DecodeF1SetupResponse | openair2/F1AP/f1ap_du_interface_management.c:432-609 | the imperative handler body, with its SI check loop, equals the response function |
| ActivationHandlers.CuConfigurationUpdateMeaning | openair2/F1AP/f1ap_du_interface_management.c:760-902 | anything but an initiating gNB-CU Configuration Update aborts; so does a missing Transaction ID; an accepted update has only Transaction ID and cell-list IEs with reject criticality, and one cell per count |
| ActivationHandlers.CuConfigurationUpdateSingleList | openair2/F1AP/f1ap_du_interface_management.c:794-902 | with one cells list, cell k of the update is item k decoded against a zeroed cell |
| ActivationHandlers.DecodeCuConfigurationUpdate | openair2/F1AP/f1ap_du_interface_management.c:760-902 | the imperative handler body equals the update function |
| DuInterface.DuF1ap.EncodeAndSend | openair2/F1AP/f1ap_du_interface_management.c:151-160 | an encoding failure returns -1 and sends nothing; otherwise one data request with the encoded bytes is queued on the association and 0 is returned |
| DuInterface.DuF1ap.SendResetAcknowledge | openair2/F1AP/f1ap_du_interface_management.c:128-161 | the outbox gains the encoded Reset Acknowledge, or nothing on an encoding failure; no event is produced |
| DuInterface.DuF1ap.SendF1SetupRequest | openair2/F1AP/f1ap_du_interface_management.c:325-430 | an abort while building leaves the outbox unchanged; otherwise the outbox gains the encoded F1 Setup Request |
| DuInterface.DuF1ap.SendDuConfigurationUpdate | openair2/F1AP/f1ap_du_interface_management.c:638-745 | an abort while building leaves the outbox unchanged; otherwise the outbox gains the encoded configuration update |
| DuInterface.DuF1ap.SendCuConfigurationUpdateAcknowledge | openair2/F1AP/f1ap_du_interface_management.c:914-958 | a nonzero failure or TNL counter aborts with nothing sent; otherwise the outbox gains the encoded acknowledgement |
| DuInterface.DuF1ap.HandleReset | openair2/F1AP/f1ap_du_interface_management.c:53-126 | an accepted Reset is handed on once as a CU-initiated reset; a rejected one aborts with nothing handed on; nothing is sent |
| DuInterface.DuF1ap.HandleF1SetupResponse | openair2/F1AP/f1ap_du_interface_management.c:432-609 | an accepted response is handed on once, a rejected one aborts with nothing handed on; nothing is sent |
| DuInterface.DuF1ap.HandleF1SetupFailure | openair2/F1AP/f1ap_du_interface_management.c:612-632 | a failure with both mandatory IEs hands on one failure indication; otherwise the DU aborts |
| DuInterface.DuF1ap.HandleCuConfigurationUpdate | openair2/F1AP/f1ap_du_interface_management.c:760-906 | an accepted update is handed on once, tagged with the association; a rejected one aborts with nothing handed on |
| DuInterface.CallUnimplemented | openair2/F1AP/f1ap_du_interface_management.c:163-185 | each of the nine stub entry points always aborts as not implemented: Reset sending, Reset Acknowledge handling and both Error Indication entry points here, and likewise gNB-DU Configuration Failure and Acknowledge handling (lines 747-758), sending a gNB-CU Configuration Update Failure (lines 908-912) and both Resource Coordination entry points (lines 960-972) |

## Left out

- `openair1/PHY/TOOLS/cmult_sv.c` and the rest of the repository are not part of this model. They hold signal processing, not F1AP.
- ASN.1 PER encoding and decoding are outside the model. The encoder is the `encode` parameter, and received PDUs come in already decoded. So buffer lengths, `ASN_STRUCT_RESET`, `calloc`/`malloc`/`free` and the out-of-memory asserts are not modelled.
- SCTP and ITTI are outside the model. Sending is appending to the outbox. `f1_reset_cu_initiated`, `f1_setup_response`, `f1_setup_failure` and `itti_send_msg_to_task` are appends to the event list.
- `GNB_MODULE_ID_TO_INSTANCE`: the gNB-CU Configuration Update event records the association id from which the instance is derived.
- The PLMN and NR cell id conversions (`MCC_MNC_TO_PLMNID`, `NR_CELL_ID_TO_BIT_STRING` and their inverses) come from headers that are not part of this model. They are uninterpreted functions in `IdentityCodec`, and no round trip is claimed for them.
- The `INT8_TO_OCTET_STRING` and `INT24_TO_OCTET_STRING` octet layouts are not modelled. The slice items keep the SST and SD integers.
- `F1AP_FIND_PROTOCOLIE_BY_ID` is not part of this model. It is modelled as "the first IE with that id, or an abort when mandatory".
- `F1AP_get_next_transaction_identifier` is not part of this model. The next transaction identifier is an argument of the senders that use it.
- The contents of `nrb_lut` and the existence of `RC.nrrrc` are parameters (`CodecEnv`).
- Logging, including the warning about a Reset on a nonzero stream, is left out, and the unused `instance` and `stream` arguments are dropped.
- Inbound.ResetOf: a Transaction ID, Cause or Reset Type IE whose value has another type aborts with `WrongValue`, where the code reads the union member without checking it. The ASN.1 decoder ties the value type to the IE id, so the case does not arise from real PDUs.
- ActivatedCells.ActivatedCellOf: the value of a gNB-CU System Information extension is likewise taken to be a SIB list, as the code reads it.
- The band lists of the FDD and TDD frequency information hold exactly the one band the loops of bound 1 write.
- The fixed sizes of `cells_to_activate` and `SI_container` are declared in headers that are not part of this model. The model bounds neither, so an overflow of those arrays is not modelled.
- The gNB-CU Configuration Update message is assumed zero-initialised by `itti_alloc_new_message`, like the F1 Setup Response record, so every slot starts as a zeroed cell.
- DuInterface.DuF1ap.SendCuConfigurationUpdateAcknowledge: the acknowledgement carries a fresh identifier from the transaction-id generator, as the code does, and not the update's own transaction id, which 3GPP TS 38.473 expects the acknowledgement to echo. The model follows the code.
- Adding and deleting cells in the gNB-DU Configuration Update abort before any list is built, so those lists, and the new NR CGI they would carry, are not modelled.
- The encoding of a nonzero gNB-DU ID in the configuration update aborts in the source, and so in the model.
- The `if (0)` blocks (the EPS TAC and the Time To Wait IE) are dead code and are not modelled.
- The F1 Setup Failure record the DU hands on is all zero in the code, so the event carries no fields.
