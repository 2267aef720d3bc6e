/** The branch record shared by every part of the dashboard: the id the
    record store assigns plus a map from field name to string value, the
    field names the script uses, and the three canonical online states. */
module Records {

  /** The fields of one branch, as the record object's own properties. */
  type Fields = map<string, string>

  /** A stored branch: the auto-incremented primary key and its fields. */
  datatype Branch = Branch(id: nat, fields: Fields)

  const StoreCodeKey: string := "storeCode"
  const BranchNameKey: string := "branchName"
  const RegionKey: string := "region"
  const StatusKey: string := "status"
  const AllZoneKey: string := "allZone"
  const OnlineStatusKey: string := "onlineStatus"
  const DistrictKey: string := "district"
  const ProvinceKey: string := "province"
  const ShopTypeKey: string := "shopType"

  /** The three canonical values of `onlineStatus`. */
  const Connectable: string := "สามารถเชื่อม Online"
  const NotConnectable: string := "ไม่สามารถเชื่อม Online"
  const NoCctv: string := "ร้านไม่ติดกล้อง CCTV"

  predicate IsCanonicalOnline(s: string)
  {
    s == Connectable || s == NotConnectable || s == NoCctv
  }

  /** `record[key] || ''`: a missing field reads as the empty string. */
  function FieldOr(fields: Fields, key: string): string
  {
    if key in fields then fields[key] else ""
  }

  /** The branch's `onlineStatus` is exactly the connectable value. */
  predicate IsConnectable(b: Branch)
  {
    OnlineStatusKey in b.fields && b.fields[OnlineStatusKey] == Connectable
  }

  /** The field values of a sequence of branches, in order. */
  function FieldsOf(bs: seq<Branch>): (r: seq<Fields>)
    ensures |r| == |bs|
    ensures forall i :: 0 <= i < |bs| ==> r[i] == bs[i].fields
  {
    seq(|bs|, i requires 0 <= i < |bs| => bs[i].fields)
  }
}
