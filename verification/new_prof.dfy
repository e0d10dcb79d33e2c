/** The profile page's save handler (country check, renaming of form keys to the names the
    API expects, password check, payload adjustments) and its work-history list updates. */
module NewProf {
  import opened Base
  import Seqs

  // ---------------------------------------------------------------------------
  // form data as object entries
  // ---------------------------------------------------------------------------

  /** One `[key, value]` pair of `Object.entries(data)`. */
  datatype Entry = Entry(key: string, value: string)

  /** The object built by assigning the entries in order under `rename(key)`: a later entry
      overwrites an earlier one that lands on the same key (the `reduce` of `handleSave`). */
  function Collect(entries: seq<Entry>, rename: string -> string): (m: map<string, string>)
    ensures m.Keys == set i | 0 <= i < |entries| :: rename(entries[i].key)
    decreases |entries|
  {
    if |entries| == 0 then
      map[]
    else
      var init := entries[..|entries| - 1];
      var last := entries[|entries| - 1];
      var m := Collect(init, rename);
      assert forall i :: 0 <= i < |init| ==> init[i] == entries[i];
      m[rename(last.key) := last.value]
  }

  /** An entry whose key no later entry shares is found, renamed, with its own value. */
  lemma {:induction false} CollectKeepsLastValue(entries: seq<Entry>, rename: string -> string, i: nat)
    requires i < |entries|
    requires forall j :: i < j < |entries| ==> rename(entries[j].key) != rename(entries[i].key)
    ensures Collect(entries, rename)[rename(entries[i].key)] == entries[i].value
    decreases |entries|
  {
    var init := entries[..|entries| - 1];
    if i < |entries| - 1 {
      assert forall j :: i < j < |init| ==> init[j] == entries[j];
      CollectKeepsLastValue(init, rename, i);
    }
  }

  /** `data[key]` on the form data object: the value of the last entry with that key. */
  function Lookup(entries: seq<Entry>, key: string): Option<string> {
    var m := Collect(entries, (k: string) => k);
    if key in m then Some(m[key]) else None
  }

  // ---------------------------------------------------------------------------
  // the field map
  // ---------------------------------------------------------------------------

  /** `Object.keys(initialFormValues).indexOf(key)`, as an index or `None` for -1. */
  function IndexOf(keys: seq<string>, key: string): (r: Option<nat>)
    ensures r.None? <==> key !in keys
    ensures r.Some? ==> r.value < |keys| && keys[r.value] == key
                        && forall j :: 0 <= j < r.value ==> keys[j] != key
    decreases |keys|
  {
    if |keys| == 0 then None
    else if keys[0] == key then Some(0)
    else
      match IndexOf(keys[1..], key)
      case None => None
      case Some(j) => Some(j + 1)
  }

  /** `fieldsMap[key]`: with mapping on, a key of the initial values is sent as the API field
      at its position; `None` stands for `undefined` (mapping off, an unknown key, or a position
      past the end of the API field list). */
  function FieldFor(mappingNeeded: bool, initialKeys: seq<string>, apiFields: seq<string>, key: string): Option<string> {
    if !mappingNeeded then None
    else match IndexOf(initialKeys, key)
      case Some(i) => if i < |apiFields| then Some(apiFields[i]) else None
      case None => None
  }

  ghost predicate Distinct(keys: seq<string>) {
    forall i, j :: 0 <= i < j < |keys| ==> keys[i] != keys[j]
  }

  /** The i-th key of the initial form values is paired with the i-th API field. */
  lemma FieldMapPairsPositions(initialKeys: seq<string>, apiFields: seq<string>, i: nat)
    requires Distinct(initialKeys)
    requires i < |initialKeys| && i < |apiFields|
    ensures FieldFor(true, initialKeys, apiFields, initialKeys[i]) == Some(apiFields[i])
  {
    var r := IndexOf(initialKeys, initialKeys[i]);
    assert r.Some?;
    assert r.value == i;
  }

  /** `fieldsMap[key] || key`: the mapped field when there is a non-empty one, else the key. */
  function RenameKey(mappingNeeded: bool, initialKeys: seq<string>, apiFields: seq<string>, key: string): (k: string)
    ensures TruthyString(FieldFor(mappingNeeded, initialKeys, apiFields, key)) ==>
              k == FieldFor(mappingNeeded, initialKeys, apiFields, key).value
    ensures !TruthyString(FieldFor(mappingNeeded, initialKeys, apiFields, key)) ==> k == key
  {
    var f := FieldFor(mappingNeeded, initialKeys, apiFields, key);
    if TruthyString(f) then f.value else key
  }

  /** Without mapping every key is kept as it is. */
  lemma NoMappingKeepsKeys(initialKeys: seq<string>, apiFields: seq<string>, key: string)
    ensures RenameKey(false, initialKeys, apiFields, key) == key
  {
  }

  /** The fields handed to `handleSave` and the context it runs in. */
  datatype SaveSettings = SaveSettings(
    countries: seq<string>,
    fieldsIncludeNationality: bool,
    mappingNeeded: bool,
    initialKeys: seq<string>,
    apiFields: seq<string>,
    accountTypeNeededInAPICall: bool,
    accountType: string)

  function Renaming(s: SaveSettings): string -> string {
    (key: string) => RenameKey(s.mappingNeeded, s.initialKeys, s.apiFields, key)
  }

  /** `mappedData`: the form data under the API's field names. */
  function MappedData(s: SaveSettings, data: seq<Entry>): (m: map<string, string>)
    ensures m.Keys == set i | 0 <= i < |data| :: RenameKey(s.mappingNeeded, s.initialKeys, s.apiFields, data[i].key)
  {
    Collect(data, Renaming(s))
  }

  /** Each entry reaches the payload under its renamed key with its value unchanged, as long as
      no two form keys are renamed alike. */
  lemma MappedDataKeepsValues(s: SaveSettings, data: seq<Entry>, i: nat)
    requires i < |data|
    requires forall j, k :: 0 <= j < k < |data| ==> Renaming(s)(data[j].key) != Renaming(s)(data[k].key)
    ensures var m := MappedData(s, data);
      var key := RenameKey(s.mappingNeeded, s.initialKeys, s.apiFields, data[i].key);
      key in m && m[key] == data[i].value
  {
    CollectKeepsLastValue(data, Renaming(s), i);
  }

  // ---------------------------------------------------------------------------
  // handleSave
  // ---------------------------------------------------------------------------

  const NationalityField: string := "Nationality"
  const PasswordField: string := "password"
  const AccountTypeField: string := "account_type"
  const DobField: string := "dob"

  /** How a save ends: refused with a toast before any request; ended by the rejection of the
      password update, which is awaited outside the `try` and so rejects the whole handler
      before the profile request; or the payload sent to the endpoint, after a resolved
      password update when `passwordUpdated`. */
  datatype SaveOutcome =
    | InvalidCountry
    | InvalidPassword
    | PasswordUpdateFailed
    | Send(payload: map<string, string>, passwordUpdated: bool)

  /** The country check: a non-empty nationality that names no known country. */
  predicate RejectsCountry(s: SaveSettings, data: seq<Entry>) {
    s.fieldsIncludeNationality && TruthyString(Lookup(data, NationalityField))
    && Lookup(data, NationalityField).value !in s.countries
  }

  /** The payload adjustments after the password step: `account_type` added on request, then a
      non-empty `dob` removed. */
  function Adjust(s: SaveSettings, m: map<string, string>): (p: map<string, string>)
    ensures AccountTypeField in p <==> (s.accountTypeNeededInAPICall || AccountTypeField in m)
    ensures s.accountTypeNeededInAPICall ==> p[AccountTypeField] == s.accountType
    ensures DobField in p ==> p[DobField] == ""
    ensures DobField in m && m[DobField] == "" ==> DobField in p
    ensures DobField in m && m[DobField] != "" ==> DobField !in p
    ensures !s.accountTypeNeededInAPICall && AccountTypeField in m ==> p[AccountTypeField] == m[AccountTypeField]
    ensures forall k :: k in m && k != AccountTypeField && k != DobField ==> k in p && p[k] == m[k]
    ensures forall k :: k in p ==> k in m || k == AccountTypeField
  {
    var withType := if s.accountTypeNeededInAPICall then m[AccountTypeField := s.accountType] else m;
    if DobField in withType && withType[DobField] != "" then withType - {DobField} else withType
  }

  /** `handleSave`; `passwordOk` is the form library's password rule (not part of this model)
      and `passwordUpdateOk` whether the `updatePassword` request resolves. */
  function Save(s: SaveSettings, data: seq<Entry>, passwordOk: string -> bool, passwordUpdateOk: bool): (r: SaveOutcome)
    ensures r == InvalidCountry <==> RejectsCountry(s, data)
    ensures var m := MappedData(s, data);
      r == InvalidPassword <==>
        !RejectsCountry(s, data) && PasswordField in m && m[PasswordField] != "" && !passwordOk(m[PasswordField])
    ensures var m := MappedData(s, data);
      r == PasswordUpdateFailed <==>
        !RejectsCountry(s, data) && PasswordField in m && m[PasswordField] != "" && passwordOk(m[PasswordField])
        && !passwordUpdateOk
    ensures r.Send? ==> var m := MappedData(s, data);
      && r.payload == Adjust(s, m)
      && (r.passwordUpdated <==> PasswordField in m && m[PasswordField] != "")
      && (r.passwordUpdated ==> passwordUpdateOk)
  {
    if RejectsCountry(s, data) then
      InvalidCountry
    else
      var m := MappedData(s, data);
      var hasPassword := PasswordField in m && m[PasswordField] != "";
      if hasPassword && !passwordOk(m[PasswordField]) then
        InvalidPassword
      else if hasPassword && !passwordUpdateOk then
        PasswordUpdateFailed
      else
        Send(Adjust(s, m), hasPassword)
  }

  /** A sent payload never carries a non-empty date of birth, and carries the account type
      exactly when asked to (or when the form itself had such a field). */
  lemma SentPayloadShape(s: SaveSettings, data: seq<Entry>, passwordOk: string -> bool, passwordUpdateOk: bool)
    ensures var r := Save(s, data, passwordOk, passwordUpdateOk);
      r.Send? ==> (DobField in r.payload ==> r.payload[DobField] == "")
                  && (s.accountTypeNeededInAPICall ==> r.payload[AccountTypeField] == s.accountType)
  {
  }

  /** The user record after the endpoint answers: merged with the payload on status 200 only. */
  function AfterEndpoint(user: map<string, string>, payload: map<string, string>, status: int): (u: map<string, string>)
    ensures status == OK ==> (u.Keys == user.Keys + payload.Keys
      && (forall k :: k in payload ==> u[k] == payload[k])
      && (forall k :: k in user && k !in payload ==> u[k] == user[k]))
    ensures status != OK ==> u == user
  {
    if status == OK then user + payload else user
  }

  // ---------------------------------------------------------------------------
  // the work history
  // ---------------------------------------------------------------------------

  /** An entry of `previous_work`; only its `_id` matters here. */
  datatype Work = Work(id: Option<string>, title: string, company: string)

  function Other(work: Work): Work -> bool {
    (item: Work) => item.id != work.id
  }

  /** `handleEditWorkHistory`: the entries with the edited entry's id are taken out, in a list
      that exists; a missing list stays missing. */
  function EditWorkHistory(previous: Option<seq<Work>>, work: Work): (r: Option<seq<Work>>)
    ensures r.None? <==> previous.None?
    ensures r.Some? ==> Seqs.IsSubsequence(r.value, previous.value)
    ensures r.Some? ==> forall w :: w in r.value <==> w in previous.value && w.id != work.id
    ensures r.Some? ==> forall w :: multiset(r.value)[w] == if w.id != work.id then multiset(previous.value)[w] else 0
  {
    match previous
    case None => None
    case Some(list) => Some(Seqs.Filter(list, Other(work)))
  }

  /** `handleSaveWorkHistory`: on a successful update request the new entry is put in front of
      the list (an empty one if missing); a failed request changes nothing. */
  function SaveWorkHistory(previous: Option<seq<Work>>, work: Work, requestOk: bool): (r: Option<seq<Work>>)
    ensures !requestOk ==> r == previous
    ensures requestOk ==> r.Some? && |r.value| >= 1 && r.value[0] == work && r.value[1..] == previous.OrElse([])
  {
    if requestOk then Some([work] + previous.OrElse([])) else previous
  }

  /** Editing an entry and saving it back leaves exactly one entry with that id, at the front,
      followed by the other entries in their old order. */
  lemma EditThenSaveKeepsOneEntry(previous: Option<seq<Work>>, work: Work)
    ensures var r := SaveWorkHistory(EditWorkHistory(previous, work), work, true).value;
      && r[0] == work
      && (forall i :: 1 <= i < |r| ==> r[i].id != work.id)
      && (previous.Some? ==> Seqs.IsSubsequence(r[1..], previous.value))
  {
    var r := SaveWorkHistory(EditWorkHistory(previous, work), work, true).value;
    forall i | 1 <= i < |r|
      ensures r[i].id != work.id
    {
      assert r[i] in r[1..];
    }
  }
}
