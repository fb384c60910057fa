/**
  The record store: a database service over four tables (kits, scan
  results, settings and the master instrument list). Tables are modelled
  by their contents, not by SQL text: `kits` and `scans` are keyed by id,
  the settings and master tables are sequences of rows in insertion order.
  Nested instrument lists are stored verbatim (their JSON encoding is an
  identity round trip here); booleans are stored as 1 or 0.
*/
module Database {
  import opened Types
  import opened LexOrder

  datatype DbError =
    | NotInitialized   // an operation ran while no database was open
    | OpenFailed       // the storage medium could not be opened

  datatype Result<T> = Ok(value: T) | Err(error: DbError)

  datatype Outcome = Pass | Fail(error: DbError)

  /** A row of the `kits` table. */
  datatype KitRow = KitRow(
    id: string,
    name: string,
    description: string,
    instruments: seq<Instrument>,
    createdAt: string,
    updatedAt: string,
    isReference: int)

  /** A row of the `settings` table. */
  datatype SettingsRow = SettingsRow(
    language: string,
    offlineMode: int,
    smsAlerts: int,
    phoneNumber: Option<string>,
    autoSave: int,
    aiConfidenceThreshold: real)

  /** A row of the `instruments_master` table. */
  datatype MasterRow = MasterRow(id: string, name: string, kind: string, description: string, createdAt: string)

  /** An entry of the built-in master list. */
  datatype MasterSeed = MasterSeed(id: string, name: string, kind: string)

  const MasterSeeds: seq<MasterSeed> := [
    MasterSeed("INST-001", "Ciseaux de Mayo", "scissors"),
    MasterSeed("INST-002", "Pince Hémostatique", "clamp"),
    MasterSeed("INST-003", "Scalpel #10", "scalpel"),
    MasterSeed("INST-004", "Pince Anatomique", "forceps"),
    MasterSeed("INST-005", "Porte-aiguille", "needle_holder")
  ]

  /** The settings row seeded into an empty settings table. */
  const DefaultSettingsRow := SettingsRow("fr", 1, 0, None, 1, 0.95)

  /** A boolean as the store writes it. */
  function BoolToInt(b: bool): (i: int)
    ensures i == 0 || i == 1
    ensures i == 1 <==> b
  {
    if b then 1 else 0
  }

  function EncodeKit(k: Kit): KitRow
  {
    KitRow(k.id, k.name, k.description, k.instruments, k.createdAt, k.updatedAt, BoolToInt(k.isReference))
  }

  /** Row to kit: `is_reference` reads back as true exactly when it holds 1. */
  function DecodeKit(row: KitRow): Kit
  {
    Kit(row.id, row.name, row.description, row.instruments, row.createdAt, row.updatedAt, row.isReference == 1)
  }

  /** A saved kit reads back unchanged, instruments in order and flag included. */
  lemma KitRoundTrip(k: Kit)
    ensures DecodeKit(EncodeKit(k)) == k
    ensures EncodeKit(k).isReference == 0 || EncodeKit(k).isReference == 1
  {
  }

  function EncodeSettings(s: Settings): SettingsRow
  {
    SettingsRow(s.language, BoolToInt(s.offlineMode), BoolToInt(s.smsAlerts), s.phoneNumber,
                BoolToInt(s.autoSave), s.aiConfidenceThreshold)
  }

  /**
    Row to settings. An empty language falls back to "fr" and a zero
    threshold to 0.95, as the `||` defaults of the read do.
  */
  function DecodeSettings(row: SettingsRow): Settings
  {
    Settings(
      if row.language == "" then "fr" else row.language,
      row.offlineMode == 1,
      row.smsAlerts == 1,
      row.phoneNumber,
      row.autoSave == 1,
      if row.aiConfidenceThreshold == 0.0 then 0.95 else row.aiConfidenceThreshold)
  }

  /** What a written settings value reads back as, stated field by field. */
  lemma SettingsReadBack(s: Settings)
    ensures var t := DecodeSettings(EncodeSettings(s));
      && t.language == (if s.language == "" then "fr" else s.language)
      && t.offlineMode == s.offlineMode
      && t.smsAlerts == s.smsAlerts
      && t.phoneNumber == s.phoneNumber
      && t.autoSave == s.autoSave
      && t.aiConfidenceThreshold == (if s.aiConfidenceThreshold == 0.0 then 0.95 else s.aiConfidenceThreshold)
  {
  }

  /** Settings round-trip exactly unless the language is empty or the threshold is zero. */
  lemma SettingsRoundTripIff(s: Settings)
    ensures DecodeSettings(EncodeSettings(s)) == s
      <==> s.language != "" && s.aiConfidenceThreshold != 0.0
  {
    var t := DecodeSettings(EncodeSettings(s));
    if s.language == "" {
      assert t.language != s.language;
    }
    if s.aiConfidenceThreshold == 0.0 {
      assert t.aiConfidenceThreshold != s.aiConfidenceThreshold;
    }
  }

  /** The seeded row reads back as the documented defaults. */
  lemma DefaultSettingsValues()
    ensures DecodeSettings(DefaultSettingsRow) == Settings("fr", true, false, None, true, 0.95)
  {
  }

  function SeedRow(seed: MasterSeed, now: string): MasterRow
  {
    MasterRow(seed.id, seed.name, seed.kind, "", now)
  }

  /** The rows the seeding loop inserts into an empty master table. */
  function SeedRows(now: string): (rows: seq<MasterRow>)
    ensures |rows| == |MasterSeeds|
  {
    seq(|MasterSeeds|, i requires 0 <= i < |MasterSeeds| => SeedRow(MasterSeeds[i], now))
  }

  /** The master table holds the built-in list, in order, whatever the timestamps. */
  ghost predicate Seeded(master: seq<MasterRow>)
  {
    |master| == |MasterSeeds|
    && forall i :: 0 <= i < |master| ==>
         master[i].id == MasterSeeds[i].id && master[i].name == MasterSeeds[i].name
         && master[i].kind == MasterSeeds[i].kind
  }

  class DatabaseService {
    /** Whether a database is open (the source's `db != null`). */
    var initialized: bool
    var kits: map<string, KitRow>
    var scans: map<string, ScanResult>
    var settingsRows: seq<SettingsRow>
    var master: seq<MasterRow>

    /** What every table satisfies whether or not a database is open. */
    ghost predicate TablesValid()
      reads this
    {
      && |settingsRows| <= 1
      && (master == [] || Seeded(master))
      && (forall id :: id in kits ==> kits[id].id == id)
      && (forall id :: id in kits ==> kits[id].isReference == 0 || kits[id].isReference == 1)
      && (forall id :: id in scans ==> scans[id].id == id)
    }

    /** Once open, the store holds exactly one settings row and the master list. */
    ghost predicate Valid()
      reads this
    {
      && TablesValid()
      && (initialized ==> |settingsRows| == 1 && Seeded(master))
    }

    /** The kits as `getKit` returns them. */
    ghost function Kits(): (m: map<string, Kit>)
      reads this
    {
      map id | id in kits :: DecodeKit(kits[id])
    }

    /** The settings as `getSettings` returns them. */
    ghost function CurrentSettings(): Settings
      reads this
      requires Valid() && initialized
    {
      DecodeSettings(settingsRows[0])
    }

    /** A service over empty storage, before `Init`. */
    constructor ()
      ensures Valid() && !initialized
      ensures kits == map[] && scans == map[] && settingsRows == [] && master == []
    {
      initialized := false;
      kits := map[];
      scans := map[];
      settingsRows := [];
      master := [];
    }

    /**
      Opens the database and seeds the default data. `openSucceeds` stands
      for the storage medium: when it cannot be opened the call fails and
      nothing changes. Seeding only fills empty tables, so calling `Init`
      again never adds a second settings row or a second master list.
    */
    method Init(openSucceeds: bool, now: string) returns (outcome: Outcome)
      requires Valid()
      modifies this
      ensures Valid()
      ensures outcome == if openSucceeds then Pass else Fail(OpenFailed)
      ensures initialized == (old(initialized) || openSucceeds)
      ensures kits == old(kits) && scans == old(scans)
      ensures settingsRows
        == if openSucceeds && old(settingsRows) == [] then [DefaultSettingsRow] else old(settingsRows)
      ensures master == if openSucceeds && old(master) == [] then SeedRows(now) else old(master)
    {
      if !openSucceeds {
        return Fail(OpenFailed);
      }
      initialized := true;
      InitDefaultData(now);
      outcome := Pass;
    }

    /** Seeds the settings row and the master list into empty tables of an open database. */
    method InitDefaultData(now: string)
      requires TablesValid()
      modifies this
      ensures TablesValid()
      ensures initialized == old(initialized) && kits == old(kits) && scans == old(scans)
      ensures settingsRows
        == if initialized && old(settingsRows) == [] then [DefaultSettingsRow] else old(settingsRows)
      ensures master == if initialized && old(master) == [] then SeedRows(now) else old(master)
      ensures initialized ==> |settingsRows| == 1 && Seeded(master)
    {
      if !initialized {
        return;
      }
      if |settingsRows| == 0 {
        settingsRows := settingsRows + [DefaultSettingsRow];
      }
      if |master| == 0 {
        var rows := SeedRows(now);
        for i := 0 to |MasterSeeds|
          invariant master == rows[..i]
          invariant initialized && kits == old(kits) && scans == old(scans)
          invariant settingsRows == if old(settingsRows) == [] then [DefaultSettingsRow] else old(settingsRows)
        {
          master := master + [SeedRow(MasterSeeds[i], now)];
        }
        assert rows[..|MasterSeeds|] == rows;
      }
    }

    /** Upserts a kit by id; other kits are untouched. */
    method SaveKit(kit: Kit) returns (outcome: Outcome)
      requires Valid()
      modifies this
      ensures Valid()
      ensures outcome == if old(initialized) then Pass else Fail(NotInitialized)
      ensures initialized == old(initialized) && scans == old(scans)
      ensures settingsRows == old(settingsRows) && master == old(master)
      ensures kits == if old(initialized) then old(kits)[kit.id := EncodeKit(kit)] else old(kits)
      ensures old(initialized) ==> Kits() == old(Kits())[kit.id := kit]
    {
      if !initialized {
        return Fail(NotInitialized);
      }
      kits := kits[kit.id := EncodeKit(kit)];
      KitRoundTrip(kit);
      outcome := Pass;
    }

    /** The kit stored under `id`, or none for an unknown id. */
    method GetKit(id: string) returns (r: Result<Option<Kit>>)
      requires Valid()
      ensures !initialized ==> r == Err(NotInitialized)
      ensures initialized ==> r.Ok? && (r.value.Some? <==> id in kits)
      ensures initialized && id in kits ==> r.value.value == DecodeKit(kits[id]) && r.value.value.id == id
    {
      if !initialized {
        return Err(NotInitialized);
      }
      if id in kits {
        r := Ok(Some(DecodeKit(kits[id])));
      } else {
        r := Ok(None);
      }
    }

    /** Every stored kit once, most recently updated first. */
    method GetAllKits() returns (r: Result<seq<Kit>>)
      requires Valid()
      ensures !initialized ==> r == Err(NotInitialized)
      ensures initialized ==> r.Ok? && |r.value| == |kits|
      ensures initialized ==> forall i :: 0 <= i < |r.value| ==>
        r.value[i].id in kits && r.value[i] == DecodeKit(kits[r.value[i].id])
      ensures initialized ==> forall id :: id in kits ==> DecodeKit(kits[id]) in r.value
      ensures initialized ==> Distinct(r.value)
      ensures initialized ==> SortedDesc(r.value, KitRecency)
    {
      if !initialized {
        return Err(NotInitialized);
      }
      var decoded := map id | id in kits :: DecodeKit(kits[id]);
      var listing := ListDesc(decoded, KitRecency);
      assert decoded.Keys == kits.Keys;
      assert forall k :: k in decoded.Values ==> k.id in kits && k == DecodeKit(kits[k.id]);
      r := Ok(listing);
    }

    /** Upserts a scan result by id; other results are untouched. */
    method SaveScanResult(result: ScanResult) returns (outcome: Outcome)
      requires Valid()
      modifies this
      ensures Valid()
      ensures outcome == if old(initialized) then Pass else Fail(NotInitialized)
      ensures initialized == old(initialized) && kits == old(kits)
      ensures settingsRows == old(settingsRows) && master == old(master)
      ensures scans == if old(initialized) then old(scans)[result.id := result] else old(scans)
    {
      if !initialized {
        return Fail(NotInitialized);
      }
      scans := scans[result.id := result];
      outcome := Pass;
    }

    /** The scan result stored under `id`, or none for an unknown id. */
    method GetScanResult(id: string) returns (r: Result<Option<ScanResult>>)
      requires Valid()
      ensures !initialized ==> r == Err(NotInitialized)
      ensures initialized ==> r.Ok? && (r.value.Some? <==> id in scans)
      ensures initialized && id in scans ==> r.value.value == scans[id] && r.value.value.id == id
    {
      if !initialized {
        return Err(NotInitialized);
      }
      if id in scans {
        r := Ok(Some(scans[id]));
      } else {
        r := Ok(None);
      }
    }

    /** Every stored scan result once, latest timestamp first. */
    method GetAllScanResults() returns (r: Result<seq<ScanResult>>)
      requires Valid()
      ensures !initialized ==> r == Err(NotInitialized)
      ensures initialized ==> r.Ok? && |r.value| == |scans|
      ensures initialized ==> forall i :: 0 <= i < |r.value| ==>
        r.value[i].id in scans && r.value[i] == scans[r.value[i].id]
      ensures initialized ==> forall id :: id in scans ==> scans[id] in r.value
      ensures initialized ==> Distinct(r.value)
      ensures initialized ==> SortedDesc(r.value, ScanRecency)
    {
      if !initialized {
        return Err(NotInitialized);
      }
      var listing := ListDesc(scans, ScanRecency);
      assert forall s :: s in scans.Values ==> s.id in scans && s == scans[s.id];
      r := Ok(listing);
    }

    /** The settings row as read back, with the `||` defaults applied. */
    method GetSettings() returns (r: Result<Settings>)
      requires Valid()
      ensures !initialized ==> r == Err(NotInitialized)
      ensures initialized ==> r.Ok? && r.value == DecodeSettings(settingsRows[0])
      ensures initialized ==> r.value.language != "" && r.value.aiConfidenceThreshold != 0.0
    {
      if !initialized {
        return Err(NotInitialized);
      }
      r := Ok(DecodeSettings(settingsRows[0]));
    }

    /** Overwrites all six fields of every settings row (there is exactly one). */
    method UpdateSettings(s: Settings) returns (outcome: Outcome)
      requires Valid()
      modifies this
      ensures Valid()
      ensures outcome == if old(initialized) then Pass else Fail(NotInitialized)
      ensures initialized == old(initialized) && kits == old(kits) && scans == old(scans)
      ensures master == old(master)
      ensures settingsRows == if old(initialized) then [EncodeSettings(s)] else old(settingsRows)
      ensures old(initialized) ==> CurrentSettings() == DecodeSettings(EncodeSettings(s))
    {
      if !initialized {
        return Fail(NotInitialized);
      }
      settingsRows := seq(|settingsRows|, _ => EncodeSettings(s));
      outcome := Pass;
    }
  }

  /**
    Opening a fresh store twice, with different clocks: the second `Init`
    seeds nothing, so one settings row and one copy of the master list
    remain, stamped by the first call.
  */
  method InitTwice(now1: string, now2: string) returns (settingsRowCount: nat, masterIds: seq<string>)
    ensures settingsRowCount == 1
    ensures masterIds == ["INST-001", "INST-002", "INST-003", "INST-004", "INST-005"]
  {
    var db := new DatabaseService();
    var first := db.Init(true, now1);
    var second := db.Init(true, now2);
    assert db.master == SeedRows(now1);
    settingsRowCount := |db.settingsRows|;
    masterIds := seq(|db.master|, i requires 0 <= i < |db.master| reads db => db.master[i].id);
  }
}
