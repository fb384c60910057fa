/**
  The records the application passes around: instruments, kits, scan
  results and settings, together with the `Option` the store uses for
  absent rows and the phone number that may be unset.
*/
module Types {

  datatype Option<+T> = None | Some(value: T)

  /** Per-instrument status assigned by reconciliation. */
  datatype Status = Present | Missing | Extra

  /** Bounding box of a detected instrument, in image coordinates. */
  datatype Position = Position(x: real, y: real, width: real, height: real)

  /**
    One physical instrument, detected or expected. The classification
    label the source calls `type` is named `kind` here (`type` is a
    keyword of the modelling language).
  */
  datatype Instrument = Instrument(
    id: string,
    name: string,
    kind: string,
    status: Status,
    confidence: real,
    position: Option<Position>)

  /** A named reference composition of instruments. */
  datatype Kit = Kit(
    id: string,
    name: string,
    description: string,
    instruments: seq<Instrument>,
    createdAt: string,
    updatedAt: string,
    isReference: bool)

  /** The tri-state verdict stored with a scan. */
  datatype Verdict = Conforming | Partial | NonConforming

  /** The outcome of one detection pass. */
  datatype ScanResult = ScanResult(
    id: string,
    kitId: string,
    imageUri: string,
    detectedInstruments: seq<Instrument>,
    conformityScore: int,
    timestamp: string,
    status: Verdict)

  /** The single configuration record of an installation. */
  datatype Settings = Settings(
    language: string,
    offlineMode: bool,
    smsAlerts: bool,
    phoneNumber: Option<string>,
    autoSave: bool,
    aiConfidenceThreshold: real)

  /** Sort key of the kit listing. */
  function KitRecency(k: Kit): string { k.updatedAt }

  /** Sort key of the scan-result listing. */
  function ScanRecency(s: ScanResult): string { s.timestamp }
}
