/** The import normaliser: `processData` and `getColumnMapping`. A sheet is
    a sequence of rows of cell strings; row 0 holds the headers. Every other
    row becomes one branch record or is counted as skipped. */
module Importer {
  import opened Wrappers
  import opened Text
  import opened Records

  /** `getColumnMapping`: header text (after trimming) to field name. */
  const ColumnMapping: map<string, string> := map[
    "รหัสร้าน" := "storeCode", "รหัส" := "storeCode", "Store Code" := "storeCode", "Code" := "storeCode",
    "ชื่อสาขา" := "branchName", "สาขา" := "branchName", "Branch Name" := "branchName", "Branch" := "branchName",
    "ภาค" := "region", "Region" := "region",
    "สถานะ" := "status", "Status" := "status",
    "All Zone" := "allZone", "allzone" := "allZone",
    "สถานะเชื่อมOnline" := "onlineStatus", "Online Status" := "onlineStatus", "Online" := "onlineStatus",
    "อำเภอ" := "district", "District" := "district",
    "จังหวัด" := "province", "Province" := "province",
    "FC." := "fc", "FC" := "fc",
    "เขต" := "zone", "Zone" := "zone",
    "ฝ่าย" := "department", "Department" := "department",
    "GM." := "gm", "GM" := "gm",
    "AVP" := "avp",
    "Shophouse/Standalone" := "shopType", "Shop Type" := "shopType", "Type" := "shopType"
  ]

  /** The alias tables of `processData`, keyed by lower-cased value. */
  const RegionMap: map<string, string> := map[
    "be" := "BE", "bg" := "BG", "bn" := "BN", "bs" := "BS", "bw" := "BW", "cm" := "CM",
    "nel" := "NEL", "neu" := "NEU", "pk" := "PK", "rc" := "RC", "rel" := "REL",
    "reu" := "REU", "rn" := "RN", "rsl" := "RSL", "rsu" := "RSU", "ub" := "UB", "yl" := "YL"
  ]

  /** The "SBP" key is upper-case, so no lower-cased value can ever reach it. */
  const StatusMap: map<string, string> := map[
    "co" := "CO", "SBP" := "SBP", "sub-area" := "Sub-Area", "ปตท" := "ปตท"
  ]

  const AllZoneMap: map<string, string> := map[
    "bangkok" := "Bangkok", "region" := "Region", "sub-area" := "Sub-Area"
  ]

  const ShopTypeMap: map<string, string> := map[
    "shophouse" := "Shophouse", "standalone" := "Standalone", "pb" := "PB", "sa" := "SA", "sh" := "SH"
  ]

  /** `table[v.toLowerCase()] || v`: the canonical spelling when the
      lower-cased value is a key, otherwise the value itself. */
  function AliasLookup(table: map<string, string>, v: string): (r: string)
    ensures r == v || r in table.Values
  {
    if Lower(v) in table then table[Lower(v)] else v
  }

  /** Looking up a canonical value of the table gives it back. */
  ghost predicate AliasStable(table: map<string, string>)
  {
    forall k :: k in table ==> table[k] != "" && AliasLookup(table, table[k]) == table[k]
  }

  /** With a stable table, normalising an already normalised value changes nothing. */
  lemma AliasLookupIdempotent(table: map<string, string>, v: string)
    requires AliasStable(table)
    ensures AliasLookup(table, AliasLookup(table, v)) == AliasLookup(table, v)
  {
  }

  /** Every alias table of the importer is stable. */
  lemma AliasTablesStable()
    ensures AliasStable(RegionMap) && AliasStable(StatusMap)
    ensures AliasStable(AllZoneMap) && AliasStable(ShopTypeMap)
  {
    RegionMapStable();
    StatusMapStable();
    AllZoneMapStable();
    ShopTypeMapStable();
  }

  const RegionKeysA: seq<string> := ["be", "bg", "bn", "bs", "bw", "cm"]
  const RegionKeysB: seq<string> := ["nel", "neu", "pk", "rc", "rel", "reu"]
  const RegionKeysC: seq<string> := ["rn", "rsl", "rsu", "ub", "yl"]

  lemma RegionMapStable()
    ensures AliasStable(RegionMap)
  {
    RegionKeysALowerToKey();
    RegionKeysBLowerToKey();
    RegionKeysCLowerToKey();
    assert forall k | k in RegionMap :: k in RegionKeysA || k in RegionKeysB || k in RegionKeysC;
    StableByLowerKey(RegionMap);
  }

  /** A table whose every value lower-cases to its own key is stable. */
  lemma StableByLowerKey(table: map<string, string>)
    requires forall k | k in table :: Lower(table[k]) == k
    requires "" !in table
    ensures AliasStable(table)
  {
    forall k | k in table
      ensures table[k] != "" && AliasLookup(table, table[k]) == table[k]
    {
      assert |Lower(table[k])| == |table[k]|;
    }
  }

  lemma RegionKeysALowerToKey()
    ensures forall k | k in RegionKeysA :: k in RegionMap && Lower(RegionMap[k]) == k
  {
  }

  lemma RegionKeysBLowerToKey()
    ensures forall k | k in RegionKeysB :: k in RegionMap && Lower(RegionMap[k]) == k
  {
  }

  lemma RegionKeysCLowerToKey()
    ensures forall k | k in RegionKeysC :: k in RegionMap && Lower(RegionMap[k]) == k
  {
  }

  lemma StatusMapStable()
    ensures AliasStable(StatusMap)
  {
    assert Lower("CO") == "co" && Lower("SBP") == "sbp";
    assert Lower("Sub-Area") == "sub-area" && Lower("ปตท") == "ปตท";
  }

  lemma AllZoneMapStable()
    ensures AliasStable(AllZoneMap)
  {
    assert Lower("Bangkok") == "bangkok" && Lower("Region") == "region";
    assert Lower("Sub-Area") == "sub-area";
  }

  lemma ShopTypeMapStable()
    ensures AliasStable(ShopTypeMap)
  {
    assert Lower("Shophouse") == "shophouse" && Lower("Standalone") == "standalone";
    assert Lower("PB") == "pb" && Lower("SA") == "sa" && Lower("SH") == "sh";
  }

  /** The "SBP" entry of the status table is dead: every spelling of "sbp"
      passes through unchanged. */
  lemma StatusSbpPassesThrough(v: string)
    requires Lower(v) == "sbp"
    ensures AliasLookup(StatusMap, v) == v
  {
    assert Lower(v) != "co" && Lower(v) != "sub-area" && Lower(v) != "ปตท";
    assert Lower(v) != "SBP" by {
      assert Lower(v)[0] == 's';
    }
  }

  /** The `onlineStatus` decision on the lower-cased, trimmed value. */
  function ClassifyOnline(status: string): (r: string)
    ensures IsCanonicalOnline(r)
    // a "cannot" phrase wins over everything else
    ensures Contains(status, "ไม่สามารถ") ==> r == NotConnectable
    ensures r == NoCctv <==>
      !Contains(status, "ไม่สามารถ") && (Contains(status, "cctv") || Contains(status, "ไม่ติดกล้อง"))
    // connectable exactly on positive evidence without a "cannot" or camera phrase;
    // anything unrecognised is not connectable
    ensures r == Connectable <==>
      && !Contains(status, "ไม่สามารถ") && !Contains(status, "cctv") && !Contains(status, "ไม่ติดกล้อง")
      && (Contains(status, "สามารถ") || status == "online" || status == "1" || status == "true")
  {
    if Contains(status, "ไม่สามารถ") then NotConnectable
    else if Contains(status, "cctv") || Contains(status, "ไม่ติดกล้อง") then NoCctv
    else if Contains(status, "สามารถ") || status == "online" || status == "1" || status == "true" then Connectable
    else NotConnectable
  }

  /** The `onlineStatus` a record ends up with, from the value it was read
      with (`FieldOr`, so a missing column reads as empty): the
      classification of that value when it is non-empty, and
      not-connectable otherwise. */
  function OnlineStatusOf(value: string): (r: string)
    ensures IsCanonicalOnline(r)
    ensures value == "" ==> r == NotConnectable
  {
    if value != "" then ClassifyOnline(Trim(Lower(value))) else NotConnectable
  }

  /** The canonical values are fixed points: a record exported and imported
      again keeps its online state. */
  lemma ClassifyCanonicalFixed(c: string)
    requires IsCanonicalOnline(c)
    ensures ClassifyOnline(Trim(Lower(c))) == c
  {
    if c == Connectable {
      LowerConnectable();
      ClassifyLoweredConnectable();
    } else if c == NotConnectable {
      LowerNotConnectable();
      ClassifyLoweredNotConnectable();
    } else {
      LowerNoCctv();
      ClassifyLoweredNoCctv();
    }
  }

  const LoweredConnectable: string := "สามารถเชื่อม online"
  const LoweredNotConnectable: string := "ไม่สามารถเชื่อม online"
  const LoweredNoCctv: string := "ร้านไม่ติดกล้อง cctv"

  lemma LowerConnectable()
    ensures Trim(Lower(Connectable)) == LoweredConnectable
  {
    assert Lower(Connectable) == LoweredConnectable;
    TrimmedIsFixed(LoweredConnectable);
  }

  lemma LowerNotConnectable()
    ensures Trim(Lower(NotConnectable)) == LoweredNotConnectable
  {
    assert Lower(NotConnectable) == LoweredNotConnectable;
    TrimmedIsFixed(LoweredNotConnectable);
  }

  lemma LowerNoCctv()
    ensures Trim(Lower(NoCctv)) == LoweredNoCctv
  {
    assert Lower(NoCctv) == LoweredNoCctv;
    TrimmedIsFixed(LoweredNoCctv);
  }

  lemma ClassifyLoweredConnectable()
    ensures ClassifyOnline(LoweredConnectable) == Connectable
  {
    NoThaiPhrase(LoweredConnectable);
    ContainsOnlyPresentChars(LoweredConnectable, "cctv", 0);
    assert OccursAt(LoweredConnectable, "สามารถ", 0);
  }

  lemma ClassifyLoweredNotConnectable()
    ensures ClassifyOnline(LoweredNotConnectable) == NotConnectable
  {
    assert OccursAt(LoweredNotConnectable, "ไม่สามารถ", 0);
  }

  lemma ClassifyLoweredNoCctv()
    ensures ClassifyOnline(LoweredNoCctv) == NoCctv
  {
    ContainsOnlyPresentChars(LoweredNoCctv, "ไม่สามารถ", 3);
    assert OccursAt(LoweredNoCctv, "cctv", 16);
  }

  /** The documented examples: "Online", "1", "true" and a phrase with
      "สามารถ" are connectable; an empty or unrecognised value is not. */
  lemma ClassifyExamples()
    ensures OnlineStatusOf("Online") == Connectable
    ensures OnlineStatusOf("1") == Connectable
    ensures OnlineStatusOf("true") == Connectable
    ensures OnlineStatusOf("สามารถเชื่อม") == Connectable
    ensures OnlineStatusOf("") == NotConnectable
    ensures OnlineStatusOf("offline") == NotConnectable
  {
    CapitalisedOnlineExample();
    AsciiExample("1", "1");
    AsciiExample("true", "true");
    AsciiExample("offline", "offline");
    ThaiPhraseExample();
  }

  lemma CapitalisedOnlineExample()
    ensures OnlineStatusOf("Online") == Connectable
  {
    assert Lower("Online") == "online";
    AsciiExample("Online", "online");
  }

  lemma AsciiExample(v: string, low: string)
    requires low in ["online", "1", "true", "offline"] && (v == low || Lower(v) == low)
    ensures OnlineStatusOf(v) == if low == "offline" then NotConnectable else Connectable
  {
    if v == low {
      LowerFixesCaseless(v);
    }
    TrimmedIsFixed(low);
    AsciiClassified(low);
  }

  lemma ThaiPhraseExample()
    ensures OnlineStatusOf("สามารถเชื่อม") == Connectable
  {
    ThaiPhraseLowered();
    ThaiPhraseClassified();
  }

  lemma ThaiPhraseLowered()
    ensures Trim(Lower("สามารถเชื่อม")) == "สามารถเชื่อม"
  {
    assert Lower("สามารถเชื่อม") == "สามารถเชื่อม";
    TrimmedIsFixed("สามารถเชื่อม");
  }

  /** A lower-case ASCII value reaches the third test; "offline" then fails it. */
  lemma AsciiClassified(low: string)
    requires low in ["online", "1", "true", "offline"]
    ensures ClassifyOnline(low) == if low == "offline" then NotConnectable else Connectable
  {
    NoThaiPhrase(low);
    ContainsOnlyPresentChars(low, "cctv", 0);
    ContainsOnlyPresentChars(low, "สามารถ", 0);
  }

  lemma ThaiPhraseClassified()
    ensures ClassifyOnline("สามารถเชื่อม") == Connectable
  {
    NoThaiPhrase("สามารถเชื่อม");
    ContainsOnlyPresentChars("สามารถเชื่อม", "cctv", 0);
    assert OccursAt("สามารถเชื่อม", "สามารถ", 0);
  }

  /** A string without 'ไ' contains neither the Thai "cannot" nor the "no camera" phrase. */
  lemma NoThaiPhrase(s: string)
    requires forall j :: 0 <= j < |s| ==> s[j] != 'ไ'
    ensures !Contains(s, "ไม่สามารถ") && !Contains(s, "ไม่ติดกล้อง")
  {
    ContainsOnlyPresentChars(s, "ไม่สามารถ", 0);
    ContainsOnlyPresentChars(s, "ไม่ติดกล้อง", 0);
  }

  /** "ไม่สามารถ" itself contains "สามารถ": only the order of the tests makes
      a "cannot connect" value not connectable. */
  lemma NegativePhraseShadowsPositive()
    ensures Contains("ไม่สามารถ", "สามารถ")
    ensures ClassifyOnline("ไม่สามารถเชื่อม online") == NotConnectable
  {
    assert OccursAt("ไม่สามารถ", "สามารถ", 3);
    assert OccursAt("ไม่สามารถเชื่อม online", "ไม่สามารถ", 0);
  }

  /** `String(cell).trim()` on every cell of a row. */
  function TrimAll(cells: seq<string>): (r: seq<string>)
    ensures |r| == |cells|
    ensures forall i :: 0 <= i < |cells| ==> r[i] == Trim(cells[i])
  {
    seq(|cells|, i requires 0 <= i < |cells| => Trim(cells[i]))
  }

  /** Column `i` is present in the header row and in the row, and its
      header maps to field `f`. */
  ghost predicate Supplies(mapping: map<string, string>, headers: seq<string>, cells: seq<string>, i: int, f: string)
  {
    0 <= i < |headers| && i < |cells| && headers[i] in mapping && mapping[headers[i]] == f
  }

  /** The record the `forEach` over the headers has built after `k` columns,
      on already trimmed cells. */
  function RowFieldsUpTo(mapping: map<string, string>, headers: seq<string>, cells: seq<string>, k: nat): Fields
    requires k <= |headers|
  {
    if k == 0 then map[]
    else
      var m := RowFieldsUpTo(mapping, headers, cells, k - 1);
      if headers[k - 1] in mapping && k - 1 < |cells| then
        m[mapping[headers[k - 1]] := cells[k - 1]]
      else
        m
  }

  /** The record built from a whole row, before value normalisation. */
  function RowFields(mapping: map<string, string>, headers: seq<string>, row: seq<string>): Fields
  {
    RowFieldsUpTo(mapping, headers, TrimAll(row), |headers|)
  }

  /** A field is present exactly when some column with a mapped header
      supplies it; an unmapped header or a missing cell contributes nothing. */
  lemma {:induction false} RowFieldsPresent(mapping: map<string, string>, headers: seq<string>, cells: seq<string>, k: nat, f: string)
    requires k <= |headers|
    ensures f in RowFieldsUpTo(mapping, headers, cells, k) <==> exists i :: 0 <= i < k && Supplies(mapping, headers, cells, i, f)
  {
    if k > 0 {
      RowFieldsPresent(mapping, headers, cells, k - 1, f);
      if !Supplies(mapping, headers, cells, k - 1, f) {
        assert f in RowFieldsUpTo(mapping, headers, cells, k) <==> f in RowFieldsUpTo(mapping, headers, cells, k - 1);
      }
    }
  }

  /** A present field holds the cell of the LAST column that supplies it. */
  lemma {:induction false} RowFieldsLastWins(mapping: map<string, string>, headers: seq<string>, cells: seq<string>, k: nat, i: nat, f: string)
    requires i < k <= |headers|
    requires Supplies(mapping, headers, cells, i, f)
    requires forall j :: i < j < k ==> !Supplies(mapping, headers, cells, j, f)
    ensures f in RowFieldsUpTo(mapping, headers, cells, k)
    ensures RowFieldsUpTo(mapping, headers, cells, k)[f] == cells[i]
  {
    if i < k - 1 {
      RowFieldsLastWins(mapping, headers, cells, k - 1, i, f);
      assert !Supplies(mapping, headers, cells, k - 1, f);
    }
  }

  /** A mapped row only holds field names the mapping produces. */
  lemma {:induction false} RowFieldsKeys(mapping: map<string, string>, headers: seq<string>, cells: seq<string>, k: nat)
    requires k <= |headers|
    ensures RowFieldsUpTo(mapping, headers, cells, k).Keys <= mapping.Values
  {
    if k > 0 {
      RowFieldsKeys(mapping, headers, cells, k - 1);
    }
  }

  /** `if (rec[key]) rec[key] = table[rec[key].toLowerCase()] || rec[key]`. */
  function NormalizeAlias<K>(rec: map<K, string>, key: K, table: map<string, string>): (r: map<K, string>)
    ensures r.Keys == rec.Keys
    ensures forall k :: k in rec && k != key ==> r[k] == rec[k]
    ensures key in rec && rec[key] != "" ==> r[key] == AliasLookup(table, rec[key])
    ensures key in rec && rec[key] == "" ==> r[key] == ""
  {
    if key in rec && rec[key] != "" then rec[key := AliasLookup(table, rec[key])] else rec
  }

  /** The fields whose values `processData` rewrites. */
  const NormalizedKeys: set<string> := {RegionKey, StatusKey, AllZoneKey, ShopTypeKey, OnlineStatusKey}

  /** `rec[key]` after `NormalizeAlias`: an empty value stays empty, any
      other value goes through the table. */
  function Aliased(table: map<string, string>, v: string): string
  {
    if v == "" then "" else AliasLookup(table, v)
  }

  lemma NormalizedKeysDistinct()
    ensures RegionKey != StatusKey && RegionKey != AllZoneKey && RegionKey != ShopTypeKey && RegionKey != OnlineStatusKey
    ensures StatusKey != AllZoneKey && StatusKey != ShopTypeKey && StatusKey != OnlineStatusKey
    ensures AllZoneKey != ShopTypeKey && AllZoneKey != OnlineStatusKey && ShopTypeKey != OnlineStatusKey
  {
    assert RegionKey[0] == 'r' && StatusKey[0] == 's' && AllZoneKey[0] == 'a';
    assert ShopTypeKey[0] == 's' && OnlineStatusKey[0] == 'o';
    assert StatusKey[1] == 't' && ShopTypeKey[1] == 'h';
  }

  /** Two alias steps on two distinct keys. */
  function AliasPair<K>(rec: map<K, string>, ka: K, ta: map<string, string>, kb: K, tb: map<string, string>): (r: map<K, string>)
    requires ka != kb
    ensures r.Keys == rec.Keys
    ensures forall k :: k in rec && k != ka && k != kb ==> r[k] == rec[k]
    ensures ka in rec ==> r[ka] == Aliased(ta, rec[ka])
    ensures kb in rec ==> r[kb] == Aliased(tb, rec[kb])
  {
    NormalizeAlias(NormalizeAlias(rec, ka, ta), kb, tb)
  }

  /** Four alias steps on four distinct keys, then `ko` set to `online`. */
  function AliasSteps<K>(rec: map<K, string>, ka: K, ta: map<string, string>, kb: K, tb: map<string, string>,
                         kc: K, tc: map<string, string>, kd: K, td: map<string, string>,
                         ko: K, online: string): (r: map<K, string>)
    requires ka != kb && ka != kc && ka != kd && ka != ko && kb != kc && kb != kd && kb != ko
    requires kc != kd && kc != ko && kd != ko
    ensures r.Keys == rec.Keys + {ko}
    ensures forall k :: k in rec && k != ka && k != kb && k != kc && k != kd && k != ko ==> r[k] == rec[k]
    ensures ka in rec ==> r[ka] == Aliased(ta, rec[ka])
    ensures kb in rec ==> r[kb] == Aliased(tb, rec[kb])
    ensures kc in rec ==> r[kc] == Aliased(tc, rec[kc])
    ensures kd in rec ==> r[kd] == Aliased(td, rec[kd])
    ensures r[ko] == online
  {
    var half := AliasPair(rec, ka, ta, kb, tb);
    var full := AliasPair(half, kc, tc, kd, td);
    assert full.Keys == rec.Keys;
    full[ko := online]
  }

  /** The value normalisation of `processData` with the given alias tables:
      region, status, zone and shop type through their tables,
      `onlineStatus` set to `online` (added when missing); every other field
      untouched. */
  function NormalizeWith(rec: Fields, regions: map<string, string>, statuses: map<string, string>,
                         zones: map<string, string>, shopTypes: map<string, string>, online: string): (r: Fields)
    ensures r.Keys == rec.Keys + {OnlineStatusKey}
    ensures forall k :: k in rec && k !in NormalizedKeys ==> r[k] == rec[k]
    ensures RegionKey in rec ==> r[RegionKey] == Aliased(regions, rec[RegionKey])
    ensures StatusKey in rec ==> r[StatusKey] == Aliased(statuses, rec[StatusKey])
    ensures AllZoneKey in rec ==> r[AllZoneKey] == Aliased(zones, rec[AllZoneKey])
    ensures ShopTypeKey in rec ==> r[ShopTypeKey] == Aliased(shopTypes, rec[ShopTypeKey])
    ensures r[OnlineStatusKey] == online
  {
    NormalizedKeysDistinct();
    AliasSteps(rec, RegionKey, regions, StatusKey, statuses, AllZoneKey, zones, ShopTypeKey, shopTypes,
               OnlineStatusKey, online)
  }

  /** With stable tables, running the four alias steps a second time
      changes nothing. */
  lemma AliasStepsIdempotent<K>(rec: map<K, string>, ka: K, ta: map<string, string>, kb: K, tb: map<string, string>,
                                kc: K, tc: map<string, string>, kd: K, td: map<string, string>,
                                ko: K, online: string)
    requires ka != kb && ka != kc && ka != kd && ka != ko && kb != kc && kb != kd && kb != ko
    requires kc != kd && kc != ko && kd != ko
    requires AliasStable(ta) && AliasStable(tb) && AliasStable(tc) && AliasStable(td)
    ensures var r := AliasSteps(rec, ka, ta, kb, tb, kc, tc, kd, td, ko, online);
      AliasSteps(r, ka, ta, kb, tb, kc, tc, kd, td, ko, online) == r
  {
    var r := AliasSteps(rec, ka, ta, kb, tb, kc, tc, kd, td, ko, online);
    var rr := AliasSteps(r, ka, ta, kb, tb, kc, tc, kd, td, ko, online);
    assert rr.Keys == r.Keys;
    forall k | k in rr
      ensures rr[k] == r[k]
    {
      if k == ka {
        AliasedIdempotent(ta, rec[ka]);
      } else if k == kb {
        AliasedIdempotent(tb, rec[kb]);
      } else if k == kc {
        AliasedIdempotent(tc, rec[kc]);
      } else if k == kd {
        AliasedIdempotent(td, rec[kd]);
      }
    }
  }

  lemma AliasedIdempotent(table: map<string, string>, v: string)
    requires AliasStable(table)
    ensures Aliased(table, Aliased(table, v)) == Aliased(table, v)
  {
    AliasLookupIdempotent(table, v);
  }

  /** With stable tables, normalising a normalised record changes nothing. */
  lemma NormalizeWithIdempotent(rec: Fields, regions: map<string, string>, statuses: map<string, string>,
                                zones: map<string, string>, shopTypes: map<string, string>, online: string)
    requires AliasStable(regions) && AliasStable(statuses) && AliasStable(zones) && AliasStable(shopTypes)
    ensures var r := NormalizeWith(rec, regions, statuses, zones, shopTypes, online);
      NormalizeWith(r, regions, statuses, zones, shopTypes, online) == r
  {
    NormalizedKeysDistinct();
    AliasStepsIdempotent(rec, RegionKey, regions, StatusKey, statuses, AllZoneKey, zones, ShopTypeKey, shopTypes,
                         OnlineStatusKey, online);
  }

  /** The normalisation `processData` applies: its own alias tables, and the
      online status classified from the value read from the sheet (the alias
      steps do not touch `onlineStatus`). */
  function NormalizeRecord(rec: Fields): Fields
  {
    NormalizeWith(rec, RegionMap, StatusMap, AllZoneMap, ShopTypeMap, OnlineStatusOf(FieldOr(rec, OnlineStatusKey)))
  }

  /** Normalising an imported record again changes nothing. */
  lemma NormalizeRecordIdempotent(rec: Fields)
    ensures NormalizeRecord(NormalizeRecord(rec)) == NormalizeRecord(rec)
  {
    var c := OnlineStatusOf(FieldOr(rec, OnlineStatusKey));
    AliasTablesStable();
    ClassifyCanonicalFixed(c);
    NormalizeWithIdempotent(rec, RegionMap, StatusMap, AllZoneMap, ShopTypeMap, c);
  }

  /** `!row.some(cell => cell && String(cell).trim())`: every cell trims to nothing. */
  predicate IsBlankRow(row: seq<string>)
  {
    forall i | 0 <= i < |row| :: Trim(row[i]) == ""
  }

  /** One data row: skipped (None) when blank or when it ends up without a
      store code, otherwise its normalised record. */
  function ProcessRow(mapping: map<string, string>, headers: seq<string>, row: seq<string>): Option<Fields>
  {
    if IsBlankRow(row) then None
    else
      var rec := NormalizeRecord(RowFields(mapping, headers, row));
      if FieldOr(rec, StoreCodeKey) != "" then Some(rec) else None
  }

  /** What every imported record satisfies: a store code, a canonical online
      status, and only fields the column mapping produces. */
  ghost predicate WellFormedImport(mapping: map<string, string>, rec: Fields)
  {
    && FieldOr(rec, StoreCodeKey) != ""
    && OnlineStatusKey in rec && IsCanonicalOnline(rec[OnlineStatusKey])
    && rec.Keys <= mapping.Values + {OnlineStatusKey}
  }

  lemma ProcessRowWellFormed(mapping: map<string, string>, headers: seq<string>, row: seq<string>)
    ensures ProcessRow(mapping, headers, row).Some? ==> WellFormedImport(mapping, ProcessRow(mapping, headers, row).value)
  {
    RowFieldsKeys(mapping, headers, TrimAll(row), |headers|);
  }

  /** `onlineStatus` is itself a target of the column mapping, so an
      imported record only holds mapped field names. */
  lemma OnlineStatusIsMapped()
    ensures OnlineStatusKey in ColumnMapping.Values
  {
    assert ColumnMapping["Online"] == OnlineStatusKey;
  }

  /** The outcome of every data row, in row order. */
  function RowResults(mapping: map<string, string>, headers: seq<string>, rows: seq<seq<string>>): (r: seq<Option<Fields>>)
    ensures |r| == |rows|
  {
    if |rows| == 0 then [] else RowResults(mapping, headers, rows[..|rows| - 1]) + [ProcessRow(mapping, headers, rows[|rows| - 1])]
  }

  /** Row `i`'s outcome is that of `ProcessRow` on it. */
  lemma {:induction false} RowResultsAt(mapping: map<string, string>, headers: seq<string>, rows: seq<seq<string>>, i: int)
    requires 0 <= i < |rows|
    ensures RowResults(mapping, headers, rows)[i] == ProcessRow(mapping, headers, rows[i])
  {
    if i < |rows| - 1 {
      RowResultsAt(mapping, headers, rows[..|rows| - 1], i);
    }
  }

  /** Every data row is either imported or skipped, and every imported
      record is well formed. */
  lemma ImportAccounting(mapping: map<string, string>, headers: seq<string>, rows: seq<seq<string>>)
    ensures var results := RowResults(mapping, headers, rows);
      |Somes(results)| + CountNone(results) == |rows|
    ensures forall r :: r in Somes(RowResults(mapping, headers, rows)) ==> WellFormedImport(mapping, r)
  {
    var results := RowResults(mapping, headers, rows);
    SomesAccounting(results);
    forall r | r in Somes(results)
      ensures WellFormedImport(mapping, r)
    {
      var i :| 0 <= i < |results| && results[i] == Some(r);
      RowResultsAt(mapping, headers, rows, i);
      ProcessRowWellFormed(mapping, headers, rows[i]);
    }
  }

  /** Import does not look for duplicates: a row given twice yields its
      record twice. */
  lemma ImportKeepsRepeatedRows(mapping: map<string, string>, headers: seq<string>, rows: seq<seq<string>>, row: seq<string>)
    requires ProcessRow(mapping, headers, row).Some?
    ensures var rec := ProcessRow(mapping, headers, row).value;
      Somes(RowResults(mapping, headers, rows + [row, row])) == Somes(RowResults(mapping, headers, rows)) + [rec, rec]
  {
    var p := ProcessRow(mapping, headers, row);
    RowResultsTwice(mapping, headers, rows, row);
    SomesAppendTwice(RowResults(mapping, headers, rows), p.value);
  }

  lemma RowResultsTwice(mapping: map<string, string>, headers: seq<string>, rows: seq<seq<string>>, row: seq<string>)
    ensures var p := ProcessRow(mapping, headers, row);
      RowResults(mapping, headers, rows + [row, row]) == RowResults(mapping, headers, rows) + [p, p]
  {
    RowResultsAppend(mapping, headers, rows, row);
    RowResultsAppend(mapping, headers, rows + [row], row);
    assert rows + [row] + [row] == rows + [row, row];
  }

  lemma RowResultsAppend(mapping: map<string, string>, headers: seq<string>, rows: seq<seq<string>>, row: seq<string>)
    ensures RowResults(mapping, headers, rows + [row]) == RowResults(mapping, headers, rows) + [ProcessRow(mapping, headers, row)]
  {
    var longer := rows + [row];
    assert longer[..|longer| - 1] == rows && longer[|longer| - 1] == row;
  }

  lemma RowResultsStep(mapping: map<string, string>, headers: seq<string>, rows: seq<seq<string>>, i: nat)
    requires 1 <= i <= |rows|
    ensures RowResults(mapping, headers, rows[..i]) == RowResults(mapping, headers, rows[..i - 1]) + [ProcessRow(mapping, headers, rows[i - 1])]
  {
    assert rows[..i][..i - 1] == rows[..i - 1] && rows[..i][i - 1] == rows[i - 1];
  }

  /** The records `processData` returns for a sheet whose row 0 is the header row. */
  function ImportedRecords(data: seq<seq<string>>): seq<Fields>
    requires |data| >= 1
  {
    Somes(RowResults(ColumnMapping, TrimAll(data[0]), data[1..]))
  }

  /** The `skippedCount` `processData` returns. */
  function SkippedRows(data: seq<seq<string>>): nat
    requires |data| >= 1
  {
    CountNone(RowResults(ColumnMapping, TrimAll(data[0]), data[1..]))
  }

  /** A sheet holding only its header row is not an empty sheet, yet it
      yields no record and no skipped row. */
  lemma HeaderOnlyImportsNothing(data: seq<seq<string>>)
    requires |data| == 1
    ensures ImportedRecords(data) == [] && SkippedRows(data) == 0
  {
    assert data[1..] == [];
  }

  /** `processData`: the headers trimmed, then one pass over the data rows
      with the column mapping of `getColumnMapping`. */
  method ProcessData(data: seq<seq<string>>) returns (newBranches: seq<Fields>, skippedCount: nat)
    requires |data| >= 1
    ensures newBranches == ImportedRecords(data) && skippedCount == SkippedRows(data)
    ensures |newBranches| + skippedCount == |data| - 1
    ensures forall r :: r in newBranches ==> WellFormedImport(ColumnMapping, r)
  {
    newBranches, skippedCount := ProcessRows(ColumnMapping, data);
  }

  /** The row loop of `processData` for a given column mapping: each data
      row is built column by column, normalised, and kept or skipped. */
  method ProcessRows(columnMapping: map<string, string>, data: seq<seq<string>>)
    returns (newBranches: seq<Fields>, skippedCount: nat)
    requires |data| >= 1
    ensures var results := RowResults(columnMapping, TrimAll(data[0]), data[1..]);
      newBranches == Somes(results) && skippedCount == CountNone(results)
    ensures |newBranches| + skippedCount == |data| - 1
    ensures forall r :: r in newBranches ==> WellFormedImport(columnMapping, r)
  {
    var headers := TrimAll(data[0]);
    skippedCount := 0;
    newBranches := [];
    ghost var rows := data[1..];
    var i := 1;
    while i < |data|
      invariant 1 <= i <= |data|
      invariant newBranches == Somes(RowResults(columnMapping, headers, rows[..i - 1]))
      invariant skippedCount == CountNone(RowResults(columnMapping, headers, rows[..i - 1]))
    {
      var row := data[i];
      var outcome := ProcessOneRow(columnMapping, headers, row);
      RowResultsStep(columnMapping, headers, rows, i);
      SomesAppend(RowResults(columnMapping, headers, rows[..i - 1]), outcome);
      match outcome {
        case Some(newBranch) =>
          newBranches := newBranches + [newBranch];
        case None =>
          skippedCount := skippedCount + 1;
      }
      i := i + 1;
    }
    assert rows[..i - 1] == rows;
    ImportAccounting(columnMapping, headers, rows);
  }

  /** The body of the row loop of `processData`: a blank row is skipped;
      otherwise the record is built, normalised, and kept only when it has
      a store code. */
  method ProcessOneRow(mapping: map<string, string>, headers: seq<string>, row: seq<string>) returns (outcome: Option<Fields>)
    ensures outcome == ProcessRow(mapping, headers, row)
  {
    if IsBlankRow(row) {
      return None;
    }
    var newBranch := BuildRecord(mapping, headers, row);
    newBranch := NormalizeRecord(newBranch);
    if FieldOr(newBranch, StoreCodeKey) != "" {
      outcome := Some(newBranch);
    } else {
      outcome := None;
    }
  }

  /** The `forEach` over the headers: each mapped header whose column exists
      in the row sets its field to the trimmed cell. */
  method BuildRecord(mapping: map<string, string>, headers: seq<string>, row: seq<string>) returns (rec: Fields)
    ensures rec == RowFields(mapping, headers, row)
  {
    var cells := TrimAll(row);
    rec := map[];
    var index := 0;
    while index < |headers|
      invariant 0 <= index <= |headers|
      invariant rec == RowFieldsUpTo(mapping, headers, cells, index)
    {
      var header := headers[index];
      ghost var next := RowFieldsUpTo(mapping, headers, cells, index + 1);
      if header in mapping && index < |row| {
        rec := rec[mapping[header] := cells[index]];
      }
      assert rec == next;
      index := index + 1;
    }
  }
}
