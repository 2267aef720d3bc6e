/** The `branches` table of the browser database (declared with an
    auto-incremented primary key and a non-unique `storeCode` index) and
    the rules `saveBranch`, `deleteBranch`, `clearAllData` and the import
    apply to it: the duplicate-code check, the list of changed fields an
    edit logs, and the effect of each write. */
module Store {
  import opened Wrappers
  import opened Records

  /** The record holds `code` in its indexed `storeCode` field. */
  predicate HasCode(b: Branch, code: string)
  {
    StoreCodeKey in b.fields && b.fields[StoreCodeKey] == code
  }

  /** The table lists its records in primary-key order, as `toArray` does. */
  predicate IdsIncreasing(rs: seq<Branch>)
  {
    forall i, j :: 0 <= i < j < |rs| ==> rs[i].id < rs[j].id
  }

  /** Every key was handed out by the generator, which starts at 1. */
  predicate IdsBelow(rs: seq<Branch>, bound: nat)
  {
    forall i :: 0 <= i < |rs| ==> 1 <= rs[i].id < bound
  }

  /** No two records share a store code. The index does not enforce this. */
  ghost predicate UniqueCodes(rs: seq<Branch>)
  {
    forall i, j, c :: 0 <= i < j < |rs| && HasCode(rs[i], c) ==> !HasCode(rs[j], c)
  }

  /** `where('storeCode').equals(code).first()`: the first record, in key
      order, holding the code. */
  function FirstWithCode(rs: seq<Branch>, code: string): (r: Option<Branch>)
    ensures r.Some? ==> r.value in rs && HasCode(r.value, code)
    ensures r.None? <==> forall b :: b in rs ==> !HasCode(b, code)
  {
    if rs == [] then None
    else if HasCode(rs[0], code) then Some(rs[0])
    else FirstWithCode(rs[1..], code)
  }

  /** The record `first()` finds has the lowest key among those holding the code. */
  lemma {:induction false} FirstWithCodeIsLowest(rs: seq<Branch>, code: string, b: Branch)
    requires IdsIncreasing(rs) && b in rs && HasCode(b, code)
    ensures FirstWithCode(rs, code).Some? && FirstWithCode(rs, code).value.id <= b.id
  {
    if rs[0] != b && !HasCode(rs[0], code) {
      FirstWithCodeIsLowest(rs[1..], code, b);
    } else if rs[0] != b {
      var k :| 0 <= k < |rs| && rs[k] == b;
      assert k > 0;
    }
  }

  /** `parseInt` of the hidden id input: the id of the record being edited,
      None (NaN) when a new record is entered. */
  function EditingId(editing: Option<Branch>): (r: Option<nat>)
    ensures r.Some? <==> editing.Some?
    ensures r.Some? ==> r.value == editing.value.id
  {
    match editing
    case None => None
    case Some(b) => Some(b.id)
  }

  /** The check `existing && existing.id !== editingId` of `saveBranch`. */
  predicate IsDuplicateSubmission(rs: seq<Branch>, code: string, editingId: Option<nat>)
  {
    var existing := FirstWithCode(rs, code);
    existing.Some? && (editingId.None? || existing.value.id != editingId.value)
  }

  /** Under unique codes, two records holding the same code are one record. */
  lemma UniqueHolder(rs: seq<Branch>, b1: Branch, b2: Branch, code: string)
    requires UniqueCodes(rs) && b1 in rs && b2 in rs && HasCode(b1, code) && HasCode(b2, code)
    ensures b1 == b2
  {
    var i :| 0 <= i < |rs| && rs[i] == b1;
    var j :| 0 <= j < |rs| && rs[j] == b2;
  }

  /** A submission the check lets through, while codes are unique: every
      record holding the code is the one being edited. */
  lemma AcceptedHolders(rs: seq<Branch>, code: string, editingId: Option<nat>)
    requires UniqueCodes(rs) && !IsDuplicateSubmission(rs, code, editingId)
    ensures forall b :: b in rs && HasCode(b, code) ==> editingId.Some? && b.id == editingId.value
  {
    forall b | b in rs && HasCode(b, code)
      ensures editingId.Some? && b.id == editingId.value
    {
      UniqueHolder(rs, b, FirstWithCode(rs, code).value, code);
    }
  }

  /** While codes are unique, the check rejects a submission exactly when
      some other record already holds the code. */
  lemma DuplicateIffOtherHolder(rs: seq<Branch>, code: string, editingId: Option<nat>)
    requires UniqueCodes(rs)
    ensures IsDuplicateSubmission(rs, code, editingId) <==>
      exists b :: b in rs && HasCode(b, code) && (editingId.None? || b.id != editingId.value)
  {
    if !IsDuplicateSubmission(rs, code, editingId) {
      AcceptedHolders(rs, code, editingId);
    }
  }

  /** The check looks at one record only: once two records share a code,
      editing the first of them is let through although the second holds
      the code too. */
  lemma DuplicateCheckSeesFirstOnly()
    ensures var rs := [Branch(1, map[StoreCodeKey := "A"]), Branch(2, map[StoreCodeKey := "A"])];
      && !IsDuplicateSubmission(rs, "A", Some(1))
      && rs[1] in rs && HasCode(rs[1], "A") && rs[1].id != 1
  {
    var rs := [Branch(1, map[StoreCodeKey := "A"]), Branch(2, map[StoreCodeKey := "A"])];
    assert HasCode(rs[0], "A");
  }

  /** `update(id, changes)`: the record with that key gets `changes` merged
      over its fields; any other record, and a missing key, change nothing. */
  function UpdateFields(rs: seq<Branch>, id: nat, changes: Fields): (r: seq<Branch>)
    ensures |r| == |rs|
    ensures forall i :: 0 <= i < |rs| ==> r[i].id == rs[i].id
    ensures forall i :: 0 <= i < |rs| && rs[i].id != id ==> r[i] == rs[i]
    ensures forall i :: 0 <= i < |rs| && rs[i].id == id ==> r[i].fields == rs[i].fields + changes
  {
    seq(|rs|, i requires 0 <= i < |rs| =>
      if rs[i].id == id then Branch(id, rs[i].fields + changes) else rs[i])
  }

  /** `delete(id)`: every record but the one with that key, in order. */
  function RemoveId(rs: seq<Branch>, id: nat): (r: seq<Branch>)
    ensures |r| <= |rs|
  {
    if rs == [] then []
    else (if rs[0].id == id then [] else [rs[0]]) + RemoveId(rs[1..], id)
  }

  /** Deleting removes the record with that key and keeps every other one. */
  lemma {:induction false} RemoveIdMembers(rs: seq<Branch>, id: nat)
    ensures forall b :: b in RemoveId(rs, id) <==> b in rs && b.id != id
  {
    if rs != [] {
      RemoveIdMembers(rs[1..], id);
      assert rs == [rs[0]] + rs[1..];
    }
  }

  lemma InTailAbove(rs: seq<Branch>, b: Branch)
    requires IdsIncreasing(rs) && |rs| > 0 && b in rs[1..]
    ensures rs[0].id < b.id
  {
    var k :| 0 <= k < |rs[1..]| && rs[1..][k] == b;
    assert rs[k + 1] == b;
  }

  /** Deleting keeps the table in key order with keys from the generator. */
  lemma {:induction false} RemoveIdIncreasing(rs: seq<Branch>, id: nat, bound: nat)
    requires IdsIncreasing(rs) && IdsBelow(rs, bound)
    ensures IdsIncreasing(RemoveId(rs, id)) && IdsBelow(RemoveId(rs, id), bound)
  {
    if rs != [] {
      var rest := rs[1..];
      assert IdsIncreasing(rest) by {
        forall i, j | 0 <= i < j < |rest|
          ensures rest[i].id < rest[j].id
        {
          assert rest[i] == rs[i + 1] && rest[j] == rs[j + 1];
        }
      }
      assert IdsBelow(rest, bound) by {
        forall i | 0 <= i < |rest|
          ensures 1 <= rest[i].id < bound
        {
          assert rest[i] == rs[i + 1];
        }
      }
      var tail := RemoveId(rest, id);
      RemoveIdIncreasing(rest, id, bound);
      var r := RemoveId(rs, id);
      if rs[0].id != id {
        assert r == [rs[0]] + tail;
        forall i, j | 0 <= i < j < |r|
          ensures r[i].id < r[j].id
        {
          assert r[j] == tail[j - 1];
          if i == 0 {
            assert tail[j - 1] in tail;
            RemoveIdMembers(rest, id);
            InTailAbove(rs, tail[j - 1]);
          } else {
            assert r[i] == tail[i - 1];
          }
        }
        forall i | 0 <= i < |r|
          ensures 1 <= r[i].id < bound
        {
          if i > 0 {
            assert r[i] == tail[i - 1];
            assert tail[i - 1] in tail;
          }
        }
      } else {
        assert r == tail;
      }
    }
  }

  /** The records `bulkAdd(items)` appends: consecutive keys from `start`. */
  function NumberFrom(items: seq<Fields>, start: nat): (r: seq<Branch>)
    ensures |r| == |items|
    ensures forall i :: 0 <= i < |items| ==> r[i] == Branch(start + i, items[i])
  {
    seq(|items|, i requires 0 <= i < |items| => Branch(start + i, items[i]))
  }

  /** Numbered records keep exactly the given field maps, in order. */
  lemma NumberFromFields(items: seq<Fields>, start: nat)
    ensures FieldsOf(NumberFrom(items, start)) == items
  {
  }

  /** The import does not check codes: two rows with the same code become
      two records holding it. */
  lemma ImportMayRepeatCodes(f: Fields, start: nat)
    requires StoreCodeKey in f
    ensures !UniqueCodes(NumberFrom([f, f], start))
  {
    var rs := NumberFrom([f, f], start);
    assert HasCode(rs[0], f[StoreCodeKey]) && HasCode(rs[1], f[StoreCodeKey]);
  }

  /** One line of the edit log: the field's key and label, and its value
      before and after, an empty or missing value shown as "(ว่าง)". */
  datatype FieldChange = FieldChange(key: string, caption: string, oldValue: string, newValue: string)

  /** `fieldLabels` of `saveBranch`. */
  const FieldLabels: map<string, string> := map[
    "storeCode" := "รหัสร้าน", "branchName" := "ชื่อสาขา", "region" := "ภาค",
    "status" := "สถานะ", "allZone" := "All Zone", "onlineStatus" := "สถานะเชื่อมOnline",
    "district" := "อำเภอ", "province" := "จังหวัด", "shopType" := "Shophouse/Standalone",
    "fc" := "FC.", "zone" := "เขต", "department" := "ฝ่าย", "gm" := "GM.", "avp" := "AVP"
  ]

  /** `fieldLabels[key] || key`. */
  function Label(key: string): string
  {
    if key in FieldLabels then FieldLabels[key] else key
  }

  /** `value || '(ว่าง)'`. */
  function ShownValue(value: string): (r: string)
    ensures r != ""
    ensures value == "" ==> r == "(ว่าง)"
    ensures value != "" ==> r == value
  {
    if value == "" then "(ว่าง)" else value
  }

  /** The key of the hidden id input, deleted from the form before an edit. */
  const IdKey: string := "id"

  /** The form's keys in the order `for...in` visits them: each key of the
      form once. */
  ghost predicate KeyOrder(form: Fields, order: seq<string>)
  {
    && (forall k :: k in order <==> k in form)
    && (forall i, j :: 0 <= i < j < |order| ==> order[i] != order[j])
  }

  /** A field the edit changes: present in the form (without the id) and
      missing before or holding another value. */
  predicate Differs(before: Fields, form: Fields, k: string)
  {
    k in form && k != IdKey && (k !in before || before[k] != form[k])
  }

  function ChangeAt(before: Fields, form: Fields, k: string): seq<FieldChange>
    requires k in form
  {
    if Differs(before, form, k) then
      [FieldChange(k, Label(k), ShownValue(FieldOr(before, k)), ShownValue(form[k]))]
    else []
  }

  /** The `changes` list of `saveBranch`, one entry per differing field in
      the form's key order. */
  function ChangeList(before: Fields, form: Fields, order: seq<string>): (r: seq<FieldChange>)
    requires forall k :: k in order ==> k in form
    ensures |r| <= |order|
    ensures forall c :: c in r ==>
      && c.key in order && Differs(before, form, c.key) && c.caption == Label(c.key)
      && c.oldValue == ShownValue(FieldOr(before, c.key)) && c.newValue == ShownValue(form[c.key])
  {
    if order == [] then []
    else ChangeList(before, form, order[..|order| - 1]) + ChangeAt(before, form, order[|order| - 1])
  }

  /** Every differing field in the order gets its entry. */
  lemma {:induction false} ChangeListComplete(before: Fields, form: Fields, order: seq<string>, k: string)
    requires forall k :: k in order ==> k in form
    requires k in order && Differs(before, form, k)
    ensures FieldChange(k, Label(k), ShownValue(FieldOr(before, k)), ShownValue(form[k]))
      in ChangeList(before, form, order)
  {
    var last := order[|order| - 1];
    if k != last {
      var i :| 0 <= i < |order| && order[i] == k;
      assert order[..|order| - 1][i] == k;
      ChangeListComplete(before, form, order[..|order| - 1], k);
    }
  }

  /** The log names exactly the fields the edit changes. */
  lemma ChangeListExact(before: Fields, form: Fields, order: seq<string>, k: string)
    requires KeyOrder(form, order)
    ensures (exists c :: c in ChangeList(before, form, order) && c.key == k) <==> Differs(before, form, k)
  {
    if Differs(before, form, k) {
      ChangeListComplete(before, form, order, k);
      var c := FieldChange(k, Label(k), ShownValue(FieldOr(before, k)), ShownValue(form[k]));
      assert c in ChangeList(before, form, order) && c.key == k;
    }
  }

  /** An empty log means the edit leaves the record's fields as they were. */
  lemma NoChangesKeepsFields(before: Fields, form: Fields, order: seq<string>)
    requires KeyOrder(form, order)
    requires ChangeList(before, form, order) == []
    ensures before + (form - {IdKey}) == before
  {
    forall k | k in form - {IdKey}
      ensures k in before && before[k] == form[k]
    {
      if Differs(before, form, k) {
        ChangeListComplete(before, form, order, k);
      }
    }
  }

  /** Saving an empty field the record never had still logs a change, from
      "(ว่าง)" to "(ว่าง)": the comparison sees a string against undefined. */
  lemma EmptyNewFieldIsLogged(before: Fields, form: Fields, order: seq<string>, k: string)
    requires forall k :: k in order ==> k in form
    requires k in order && k != IdKey && form[k] == "" && k !in before
    ensures FieldChange(k, Label(k), "(ว่าง)", "(ว่าง)") in ChangeList(before, form, order)
  {
    ChangeListComplete(before, form, order, k);
  }

  /** Whether `saveBranch` takes its edit path: a record is being edited
      and its id is truthy. */
  predicate IsEdit(editing: Option<Branch>)
  {
    editing.Some? && editing.value.id != 0
  }

  /** The table after a save that passed the duplicate check. */
  function SavedRecords(rs: seq<Branch>, nextId: nat, form: Fields, editing: Option<Branch>): (r: seq<Branch>)
    ensures IsEdit(editing) ==> r == UpdateFields(rs, editing.value.id, form - {IdKey})
    ensures !IsEdit(editing) ==> r == rs + [Branch(nextId, form)]
  {
    if IsEdit(editing) then UpdateFields(rs, editing.value.id, form - {IdKey})
    else rs + [Branch(nextId, form)]
  }

  /** A save the check lets through never makes two records share a code. */
  lemma SaveKeepsCodesUnique(rs: seq<Branch>, nextId: nat, form: Fields, editing: Option<Branch>)
    requires IdsIncreasing(rs) && IdsBelow(rs, nextId) && UniqueCodes(rs)
    requires StoreCodeKey in form
    requires !IsDuplicateSubmission(rs, form[StoreCodeKey], EditingId(editing))
    ensures UniqueCodes(SavedRecords(rs, nextId, form, editing))
  {
    var code := form[StoreCodeKey];
    var r := SavedRecords(rs, nextId, form, editing);
    AcceptedHolders(rs, code, EditingId(editing));
    if IsEdit(editing) {
      var e := editing.value.id;
      forall i, j, c | 0 <= i < j < |r| && HasCode(r[i], c)
        ensures !HasCode(r[j], c)
      {
        if rs[i].id == e {
          assert c == code && r[j] == rs[j] && rs[j] in rs;
        } else if rs[j].id == e {
          assert r[i] == rs[i] && rs[i] in rs;
        } else {
          assert r[i] == rs[i] && r[j] == rs[j];
        }
      }
    } else {
      forall i, j, c | 0 <= i < j < |r| && HasCode(r[i], c)
        ensures !HasCode(r[j], c)
      {
        assert r[i] == rs[i] && rs[i] in rs;
      }
    }
  }

  /** What a save did. */
  datatype SaveOutcome =
    | MissingStoreCode
    | Duplicate(existing: Branch)
    | Added(id: nat)
    | Edited(changes: seq<FieldChange>)

  class BranchStore {
    /** The records, in key order. */
    var records: seq<Branch>
    /** The next key the generator hands out; `clear` does not reset it. */
    var nextId: nat

    ghost predicate Valid()
      reads this
    {
      nextId >= 1 && IdsIncreasing(records) && IdsBelow(records, nextId)
    }

    /** An empty table. */
    constructor()
      ensures Valid() && records == [] && nextId == 1
    {
      records := [];
      nextId := 1;
    }

    /** `get(id)`. */
    function Get(id: nat): (r: Option<Branch>)
      reads this
      ensures r.Some? <==> exists b :: b in records && b.id == id
      ensures r.Some? ==> r.value in records && r.value.id == id
    {
      FindId(records, id)
    }

    /** `add(fields)`: the fields stored under the next key. */
    method Add(fields: Fields) returns (id: nat)
      requires Valid()
      modifies this
      ensures Valid()
      ensures id == old(nextId) && records == old(records) + [Branch(id, fields)] && nextId == id + 1
    {
      id := nextId;
      records := records + [Branch(id, fields)];
      nextId := nextId + 1;
    }

    /** `update(id, changes)`. */
    method Update(id: nat, changes: Fields)
      requires Valid()
      modifies this
      ensures Valid()
      ensures records == UpdateFields(old(records), id, changes) && nextId == old(nextId)
    {
      records := UpdateFields(records, id, changes);
    }

    /** `delete(id)`. */
    method Delete(id: nat)
      requires Valid()
      modifies this
      ensures Valid()
      ensures records == RemoveId(old(records), id) && nextId == old(nextId)
    {
      RemoveIdIncreasing(records, id, nextId);
      records := RemoveId(records, id);
    }

    /** `clear()`: no record is left; keys already handed out stay used. */
    method Clear()
      requires Valid()
      modifies this
      ensures Valid()
      ensures records == [] && nextId == old(nextId)
    {
      records := [];
    }

    /** `bulkAdd(items)`: every item stored, in order, under consecutive keys. */
    method BulkAdd(items: seq<Fields>)
      requires Valid()
      modifies this
      ensures Valid()
      ensures records == old(records) + NumberFrom(items, old(nextId))
      ensures nextId == old(nextId) + |items|
    {
      var i := 0;
      while i < |items|
        invariant 0 <= i <= |items|
        invariant Valid()
        invariant records == old(records) + NumberFrom(items[..i], old(nextId))
        invariant nextId == old(nextId) + i
      {
        var id := Add(items[i]);
        assert NumberFrom(items[..i + 1], old(nextId)) == NumberFrom(items[..i], old(nextId)) + [Branch(id, items[i])];
        i := i + 1;
      }
      assert items[..i] == items;
    }

    /** The import transaction: `clear()` then `bulkAdd(items)`. The table
        then holds exactly the imported records, in order. */
    method ReplaceAll(items: seq<Fields>)
      requires Valid()
      modifies this
      ensures Valid()
      ensures records == NumberFrom(items, old(nextId)) && FieldsOf(records) == items
      ensures nextId == old(nextId) + |items|
    {
      Clear();
      BulkAdd(items);
      NumberFromFields(items, old(nextId));
    }

    /** The store effects of `saveBranch`: a form without a store code is
        refused, a code already held by another record is refused, and
        otherwise the form is added as a new record or merged into the
        edited one, whose changed fields are listed. */
    method Save(form: Fields, order: seq<string>, editing: Option<Branch>) returns (outcome: SaveOutcome)
      requires Valid() && KeyOrder(form, order)
      modifies this
      ensures Valid()
      ensures outcome.MissingStoreCode? <==> StoreCodeKey !in form
      ensures StoreCodeKey in form ==>
        (outcome.Duplicate? <==> IsDuplicateSubmission(old(records), form[StoreCodeKey], EditingId(editing)))
      ensures outcome.Duplicate? ==> Some(outcome.existing) == FirstWithCode(old(records), form[StoreCodeKey])
      ensures outcome.MissingStoreCode? || outcome.Duplicate? ==>
        records == old(records) && nextId == old(nextId)
      ensures outcome.Added? || outcome.Edited? ==>
        records == SavedRecords(old(records), old(nextId), form, editing)
      ensures outcome.Added? ==> !IsEdit(editing) && outcome.id == old(nextId) && nextId == old(nextId) + 1
      ensures outcome.Edited? ==>
        IsEdit(editing) && nextId == old(nextId) && outcome.changes == ChangeList(editing.value.fields, form, order)
    {
      if StoreCodeKey !in form {
        return MissingStoreCode;
      }
      var existing := FirstWithCode(records, form[StoreCodeKey]);
      var editingId := EditingId(editing);
      if existing.Some? && (editingId.None? || existing.value.id != editingId.value) {
        return Duplicate(existing.value);
      }
      if IsEdit(editing) {
        var changes := DiffFields(editing.value.fields, form, order);
        Update(editing.value.id, form - {IdKey});
        outcome := Edited(changes);
      } else {
        var id := Add(form);
        outcome := Added(id);
      }
    }
  }

  function FindId(rs: seq<Branch>, id: nat): (r: Option<Branch>)
    ensures r.Some? <==> exists b :: b in rs && b.id == id
    ensures r.Some? ==> r.value in rs && r.value.id == id
  {
    if rs == [] then None
    else if rs[0].id == id then Some(rs[0])
    else FindId(rs[1..], id)
  }

  /** The comparison loop of `saveBranch`. */
  method DiffFields(before: Fields, form: Fields, order: seq<string>) returns (changes: seq<FieldChange>)
    requires forall k :: k in order ==> k in form
    ensures changes == ChangeList(before, form, order)
  {
    changes := [];
    var i := 0;
    while i < |order|
      invariant 0 <= i <= |order|
      invariant changes == ChangeList(before, form, order[..i])
    {
      var key := order[i];
      ChangeListStep(before, form, order, i);
      if key != IdKey && (key !in before || form[key] != before[key]) {
        changes := changes + [FieldChange(key, Label(key), ShownValue(FieldOr(before, key)), ShownValue(form[key]))];
      }
      i := i + 1;
    }
    assert order[..i] == order;
  }

  /** One more key of the form extends the change list by that key's entry. */
  lemma ChangeListStep(before: Fields, form: Fields, order: seq<string>, i: nat)
    requires forall k :: k in order ==> k in form
    requires i < |order|
    ensures ChangeList(before, form, order[..i + 1]) == ChangeList(before, form, order[..i]) + ChangeAt(before, form, order[i])
  {
    assert order[..i + 1][..i] == order[..i];
  }
}
