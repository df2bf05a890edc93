/**
  The nested-field lookups of the Patient flattener: identifiers by system
  substring or type code, extensions by URL, the us-core-race text, the first
  name and address blocks, and the keep-columns selection.

  Each lookup takes the Patient's array as `Option<seq<Json>>`: `None` is an
  absent array. Python's `None` result is `JNull`.
 */
module PatientFields {
  import opened Wrappers
  import opened Json
  import opened Text
  import opened Seqs

  const UsCoreRaceUrl := "http://hl7.org/fhir/us/core/StructureDefinition/us-core-race"

  // ---------------------------------------------------------------------------
  // Identifier lookups
  // ---------------------------------------------------------------------------

  /** `ident.get("system", "") or ""` */
  function SystemOf(ident: Json): Json {
    OrElse(GetOr(ident, "system", EmptyText), EmptyText)
  }

  /** `match_system_substr in system` */
  predicate SystemMatches(ident: Json, sub: string) {
    Includes(SystemOf(ident), sub)
  }

  predicate NoSystemMatchBefore(ids: seq<Json>, i: int, sub: string)
    requires 0 <= i <= |ids|
  {
    forall j :: 0 <= j < i ==> !SystemMatches(ids[j], sub)
  }

  /** Identifier `i` is the first whose system contains `sub`. */
  predicate IsFirstSystemMatch(ids: seq<Json>, i: int, sub: string) {
    0 <= i < |ids| && SystemMatches(ids[i], sub) && NoSystemMatchBefore(ids, i, sub)
  }

  /**
    `find_identifier_value`: the `value` of the first identifier whose system
    contains `sub`; `None` for an absent list or when no identifier matches.
   */
  function FindIdentifierValue(ids: Option<seq<Json>>, sub: string): (r: Json)
    ensures ids.None? ==> r == JNull
    ensures ids.Some? && NoSystemMatchBefore(ids.value, |ids.value|, sub) ==> r == JNull
    ensures ids.Some? ==> forall i :: IsFirstSystemMatch(ids.value, i, sub) ==> r == Get(ids.value[i], "value")
  {
    match ids
    case None => JNull
    case Some(xs) =>
      var k := FirstWhere(xs, ident => SystemMatches(ident, sub));
      assert k < |xs| ==> SystemMatches(xs[k], sub);
      assert NoSystemMatchBefore(xs, k, sub);
      if k < |xs| then Get(xs[k], "value") else JNull
  }

  /**
    `in` on a list-valued system tests its elements: an element equal to
    `sub` matches, an element that merely contains `sub` does not.
   */
  lemma ListSystemMatchesByElement(v: Json)
    ensures FindIdentifierValue(Some([JObj([("system", JArr([JStr("bene_id")])), ("value", v)])]), "bene_id") == v
    ensures FindIdentifierValue(Some([JObj([("system", JArr([JStr("https://bluebutton.cms.gov/bene_id")])), ("value", v)])]), "bene_id") == JNull
  {
    var hit := JObj([("system", JArr([JStr("bene_id")])), ("value", v)]);
    assert SystemMatches(hit, "bene_id");
    assert IsFirstSystemMatch([hit], 0, "bene_id");
    assert hit.fields[1..] == [("value", v)];
    assert Lookup(hit.fields[1..], "value") == Some(v);
    assert "system" != "value";
    assert Lookup(hit.fields, "value") == Some(v);
    assert Get(hit, "value") == v;
    assert FindIdentifierValue(Some([hit]), "bene_id") == Get([hit][0], "value");
    var miss := JObj([("system", JArr([JStr("https://bluebutton.cms.gov/bene_id")])), ("value", v)]);
    assert SystemOf(miss) == JArr([JStr("https://bluebutton.cms.gov/bene_id")]);
    assert JStr("bene_id") != JStr("https://bluebutton.cms.gov/bene_id");
    assert !SystemMatches(miss, "bene_id");
  }

  /** `ident.get("type", {}).get("coding", [])`, with a non-list read as `[]`. */
  function TypeCodings(ident: Json): seq<Json> {
    AsList(GetOr(GetOr(ident, "type", EmptyObject), "coding", EmptyList))
  }

  /** Some coding of the identifier's type has exactly `code` as its `code`. */
  predicate HasTypeCode(ident: Json, code: string) {
    exists c :: c in TypeCodings(ident) && Get(c, "code") == JStr(code)
  }

  predicate NoTypeCodeBefore(ids: seq<Json>, i: int, code: string)
    requires 0 <= i <= |ids|
  {
    forall j :: 0 <= j < i ==> !HasTypeCode(ids[j], code)
  }

  /** Identifier `i` is the first with a type coding whose code is `code`. */
  predicate IsFirstTypeCode(ids: seq<Json>, i: int, code: string) {
    0 <= i < |ids| && HasTypeCode(ids[i], code) && NoTypeCodeBefore(ids, i, code)
  }

  /**
    `find_identifier_by_code`: the `value` of the first identifier having a
    `type.coding` entry whose `code` equals `code` exactly.
   */
  function FindIdentifierByCode(ids: Option<seq<Json>>, code: string): (r: Json)
    ensures ids.None? ==> r == JNull
    ensures ids.Some? && NoTypeCodeBefore(ids.value, |ids.value|, code) ==> r == JNull
    ensures ids.Some? ==> forall i :: IsFirstTypeCode(ids.value, i, code) ==> r == Get(ids.value[i], "value")
  {
    match ids
    case None => JNull
    case Some(xs) =>
      var k := FirstWhere(xs, ident => HasTypeCode(ident, code));
      assert k < |xs| ==> HasTypeCode(xs[k], code);
      assert NoTypeCodeBefore(xs, k, code);
      if k < |xs| then Get(xs[k], "value") else JNull
  }

  // ---------------------------------------------------------------------------
  // Extension lookups
  // ---------------------------------------------------------------------------

  /** `e.get("url", "") or ""` */
  function UrlOf(e: Json): Json {
    OrElse(GetOr(e, "url", EmptyText), EmptyText)
  }

  /** `url_substr in url` */
  predicate UrlMatches(e: Json, sub: string) {
    Includes(UrlOf(e), sub)
  }

  predicate NoUrlMatchBefore(exts: seq<Json>, i: int, sub: string)
    requires 0 <= i <= |exts|
  {
    forall j :: 0 <= j < i ==> !UrlMatches(exts[j], sub)
  }

  predicate IsValueKey(kv: (string, Json)) {
    IsPrefix("value", kv.0)
  }

  /** The object's key/value pairs (none for a value that is not an object). */
  function FieldsOf(e: Json): seq<(string, Json)> {
    if e.JObj? then e.fields else []
  }

  /** Key `i` of `e` is its first key starting with "value". */
  predicate IsFirstValueKey(e: Json, i: int) {
    0 <= i < |FieldsOf(e)| && IsValueKey(FieldsOf(e)[i])
    && forall j :: 0 <= j < i ==> !IsValueKey(FieldsOf(e)[j])
  }

  predicate NoValueKey(e: Json) {
    forall i :: 0 <= i < |FieldsOf(e)| ==> !IsValueKey(FieldsOf(e)[i])
  }

  /** `e["extension"]` when `e` has that key and it holds a list; `None` otherwise. */
  function NestedListOrNull(e: Json): Json {
    match Field(e, "extension")
    case Some(JArr(nested)) => JArr(nested)
    case _ => JNull
  }

  /**
    What `ext_value_by_url` returns for the extension it settled on: the value
    of the first key starting with "value"; failing that, a nested `extension`
    list unchanged; failing that, `None`.
   */
  function ExtensionPayload(e: Json): (r: Json)
    ensures forall i :: IsFirstValueKey(e, i) ==> r == FieldsOf(e)[i].1
    ensures NoValueKey(e) ==> r == NestedListOrNull(e)
  {
    var fields := FieldsOf(e);
    var k := FirstWhere(fields, IsValueKey);
    if k < |fields| then fields[k].1 else NestedListOrNull(e)
  }

  /** Extension `i` is the first whose url contains `sub`. */
  predicate IsFirstUrlMatch(exts: seq<Json>, i: int, sub: string) {
    0 <= i < |exts| && UrlMatches(exts[i], sub) && NoUrlMatchBefore(exts, i, sub)
  }

  /**
    `ext_value_by_url`: only the first extension whose url contains `sub`
    is considered; its payload is the result even when it is `None`.
   */
  function ExtValueByUrl(exts: Option<seq<Json>>, sub: string): (r: Json)
    ensures exts.None? ==> r == JNull
    ensures exts.Some? && NoUrlMatchBefore(exts.value, |exts.value|, sub) ==> r == JNull
    ensures exts.Some? ==> forall i :: IsFirstUrlMatch(exts.value, i, sub) ==> r == ExtensionPayload(exts.value[i])
  {
    match exts
    case None => JNull
    case Some(xs) =>
      var k := FirstWhere(xs, e => UrlMatches(e, sub));
      assert forall i :: IsFirstUrlMatch(xs, i, sub) ==> i == k;
      if k < |xs| then ExtensionPayload(xs[k]) else JNull
  }

  /** Once the first matching extension has no payload, later matching extensions are never looked at. */
  lemma {:induction false} ExtValueStopsAtFirstMatch(exts: seq<Json>, sub: string, i: nat, j: nat)
    requires i < j < |exts|
    requires IsFirstUrlMatch(exts, i, sub)
    requires ExtensionPayload(exts[i]) == JNull
    requires UrlMatches(exts[j], sub) && ExtensionPayload(exts[j]) != JNull
    ensures ExtValueByUrl(Some(exts), sub) == JNull
  {
  }

  /** `e.get("url", "") == <us-core-race url>`: an exact match, not a substring. */
  predicate IsRaceExtension(e: Json) {
    GetOr(e, "url", EmptyText) == JStr(UsCoreRaceUrl)
  }

  /** `e.get("extension", [])` when it is a list. */
  function NestedExtensions(e: Json): seq<Json> {
    AsList(GetOr(e, "extension", EmptyList))
  }

  predicate IsTextEntry(n: Json) {
    Get(n, "url") == JStr("text")
  }

  /** A us-core-race extension with a nested entry whose url is "text". */
  predicate HasRaceText(e: Json) {
    IsRaceExtension(e) && exists n :: n in NestedExtensions(e) && IsTextEntry(n)
  }

  /** Nested entry `i` of `e` is its first whose url is "text". */
  predicate IsFirstTextEntry(e: Json, i: int) {
    0 <= i < |NestedExtensions(e)| && IsTextEntry(NestedExtensions(e)[i])
    && forall j :: 0 <= j < i ==> !IsTextEntry(NestedExtensions(e)[j])
  }

  /** The `valueString` of the first "text" entry of a race extension. */
  function RaceTextOf(e: Json): (r: Json)
    requires HasRaceText(e)
    ensures forall i :: IsFirstTextEntry(e, i) ==> r == Get(NestedExtensions(e)[i], "valueString")
  {
    var nested := NestedExtensions(e);
    var k := FirstWhere(nested, IsTextEntry);
    Get(nested[k], "valueString")
  }

  predicate NoRaceTextBefore(exts: seq<Json>, i: int)
    requires 0 <= i <= |exts|
  {
    forall j :: 0 <= j < i ==> !HasRaceText(exts[j])
  }

  /** Extension `i` is the first race extension with a "text" entry. */
  predicate IsFirstRaceText(exts: seq<Json>, i: int) {
    0 <= i < |exts| && HasRaceText(exts[i]) && NoRaceTextBefore(exts, i)
  }

  /**
    `ext_text_from_us_core_race`: scanning goes on past race extensions that
    have no "text" entry; the first one that has one decides the result.
   */
  function ExtTextFromUsCoreRace(exts: Option<seq<Json>>): (r: Json)
    ensures exts.None? ==> r == JNull
    ensures exts.Some? && NoRaceTextBefore(exts.value, |exts.value|) ==> r == JNull
    ensures exts.Some? ==> forall i :: IsFirstRaceText(exts.value, i) ==> r == RaceTextOf(exts.value[i])
  {
    match exts
    case None => JNull
    case Some(xs) =>
      var k := FirstWhere(xs, HasRaceText);
      assert forall i :: IsFirstRaceText(xs, i) ==> i == k;
      if k < |xs| then RaceTextOf(xs[k]) else JNull
  }

  // ---------------------------------------------------------------------------
  // Name and address blocks
  // ---------------------------------------------------------------------------

  predicate AllText(xs: seq<Json>) {
    forall i :: 0 <= i < |xs| ==> xs[i].JStr?
  }

  function Texts(xs: seq<Json>): (r: seq<string>)
    requires AllText(xs)
    ensures |r| == |xs| && forall i :: 0 <= i < |xs| ==> xs[i] == JStr(r[i])
  {
    seq(|xs|, i requires 0 <= i < |xs| => xs[i].s)
  }

  /** `" ".join(v)` can run on the field: it is absent, not a list, or a list of strings. */
  predicate Joinable(v: Json, key: string) {
    match Field(v, key)
    case Some(JArr(xs)) => AllText(xs)
    case _ => true
  }

  /**
    `" ".join(v.get(key, [])) if isinstance(v.get(key, []), list) else v.get(key)`:
    "" for an absent field, a list's strings joined by single spaces, any
    other value as it is.
   */
  function JoinedField(v: Json, key: string): (r: Json)
    requires Joinable(v, key)
    ensures Field(v, key).None? ==> r == JStr("")
    ensures Field(v, key).Some? && Field(v, key).value.JArr? ==> r == JStr(Join(Texts(Field(v, key).value.items)))
    ensures Field(v, key).Some? && !Field(v, key).value.JArr? ==> r == Field(v, key).value
  {
    match Field(v, key)
    case None => JStr(Join([]))
    case Some(JArr(xs)) => JStr(Join(Texts(xs)))
    case Some(other) => other
  }

  predicate HeadJoinable(blocks: Option<seq<Json>>, key: string) {
    blocks.Some? && |blocks.value| > 0 ==> Joinable(blocks.value[0], key)
  }

  /** `first_name_block`: the first name's use, family and given names joined by spaces. */
  function FirstNameBlock(names: Option<seq<Json>>): (r: Json)
    requires HeadJoinable(names, "given")
    ensures names.None? || names.value == [] ==> r == EmptyObject
    ensures names.Some? && names.value != [] ==>
      r.JObj? && |r.fields| == 3
      && r.fields[0] == ("name_use", Get(names.value[0], "use"))
      && r.fields[1] == ("family", Get(names.value[0], "family"))
      && r.fields[2] == ("given", JoinedField(names.value[0], "given"))
  {
    match names
    case None => EmptyObject
    case Some(xs) =>
      if |xs| == 0 then EmptyObject
      else
        var n := xs[0];
        JObj([("name_use", Get(n, "use")), ("family", Get(n, "family")), ("given", JoinedField(n, "given"))])
  }

  /** `first_address_block`: the first address's state, postal code, city and lines joined by spaces. */
  function FirstAddressBlock(addresses: Option<seq<Json>>): (r: Json)
    requires HeadJoinable(addresses, "line")
    ensures addresses.None? || addresses.value == [] ==> r == EmptyObject
    ensures addresses.Some? && addresses.value != [] ==>
      r.JObj? && |r.fields| == 4
      && r.fields[0] == ("address_state", Get(addresses.value[0], "state"))
      && r.fields[1] == ("postal_code", Get(addresses.value[0], "postalCode"))
      && r.fields[2] == ("city", Get(addresses.value[0], "city"))
      && r.fields[3] == ("line", JoinedField(addresses.value[0], "line"))
  {
    match addresses
    case None => EmptyObject
    case Some(xs) =>
      if |xs| == 0 then EmptyObject
      else
        var a := xs[0];
        JObj([("address_state", Get(a, "state")), ("postal_code", Get(a, "postalCode")),
              ("city", Get(a, "city")), ("line", JoinedField(a, "line"))])
  }

  /** Only the first name counts: whatever follows it leaves the block unchanged. */
  lemma {:induction false} FirstNameBlockIgnoresRest(n: Json, rest: seq<Json>)
    requires Joinable(n, "given")
    ensures FirstNameBlock(Some([n] + rest)) == FirstNameBlock(Some([n]))
  {
  }

  /**
    The block's `given` text holds the given names separated by single spaces:
    splitting it on " " gives them back when none of them holds a space.
   */
  lemma {:induction false} GivenNamesRoundTrip(names: seq<Json>, given: seq<string>)
    requires |names| > 0 && |given| > 0
    requires Field(names[0], "given") == Some(JArr(seq(|given|, i requires 0 <= i < |given| => JStr(given[i]))))
    requires forall k, i :: 0 <= k < |given| && 0 <= i < |given[k]| ==> given[k][i] != ' '
    ensures HeadJoinable(Some(names), "given")
    ensures FirstNameBlock(Some(names)).fields[2].1.JStr?
    ensures Split(FirstNameBlock(Some(names)).fields[2].1.s) == given
  {
    var xs := seq(|given|, i requires 0 <= i < |given| => JStr(given[i]));
    assert Texts(xs) == given;
    SplitJoin(given);
  }

  /** Likewise for the address lines. */
  lemma {:induction false} AddressLinesRoundTrip(addresses: seq<Json>, lines: seq<string>)
    requires |addresses| > 0 && |lines| > 0
    requires Field(addresses[0], "line") == Some(JArr(seq(|lines|, i requires 0 <= i < |lines| => JStr(lines[i]))))
    requires forall k, i :: 0 <= k < |lines| && 0 <= i < |lines[k]| ==> lines[k][i] != ' '
    ensures HeadJoinable(Some(addresses), "line")
    ensures FirstAddressBlock(Some(addresses)).fields[3].1.JStr?
    ensures Split(FirstAddressBlock(Some(addresses)).fields[3].1.s) == lines
  {
    var xs := seq(|lines|, i requires 0 <= i < |lines| => JStr(lines[i]));
    assert Texts(xs) == lines;
    SplitJoin(lines);
  }

  // ---------------------------------------------------------------------------
  // Output columns
  // ---------------------------------------------------------------------------

  /** `pretty_json_or_value`: containers become their `json.dumps` text; everything else is unchanged. */
  function PrettyJsonOrValue(v: Json, dumps: Json -> string): (r: Json)
    ensures !v.JArr? && !v.JObj? ==> r == v
    ensures v.JArr? || v.JObj? ==> r == JStr(dumps(v))
  {
    if v.JArr? || v.JObj? then JStr(dumps(v)) else v
  }

  /** Serializing twice is serializing once: the result is never a container. */
  lemma {:induction false} PrettyJsonOrValueIdempotent(v: Json, dumps: Json -> string)
    ensures PrettyJsonOrValue(PrettyJsonOrValue(v, dumps), dumps) == PrettyJsonOrValue(v, dumps)
  {
  }

  /** The allow-list of output columns, in output order. */
  const KeepCols: seq<string> := [
    "patient_id", "meta_lastUpdated", "bene_id", "mbi", "identifier_MB", "identifier_MC",
    "name_use", "family_name", "given_names", "gender", "birth_date", "deceased_boolean",
    "address_state", "city", "postal_code", "address_line", "us_core_sex_code", "race_coding",
    "us_core_race_text", "reference_year", "dual_01", "dual_02", "dual_03",
    "identifier", "extension", "meta"]

  /** `[c for c in keep_cols if c in df.columns]`: allow-list order, existing columns only. */
  function KeepExisting(allow: seq<string>, columns: seq<string>): (r: seq<string>)
    ensures forall c :: c in r <==> c in allow && c in columns
    ensures IsSubsequence(r, allow)
  {
    SelectIsSubsequence(allow, Elements(columns));
    Select(allow, Elements(columns))
  }

  /** `patient_id`, when the frame has it, is the first output column. */
  lemma PatientIdLeads(columns: seq<string>)
    requires "patient_id" in columns
    ensures |KeepExisting(KeepCols, columns)| > 0 && KeepExisting(KeepCols, columns)[0] == "patient_id"
  {
    var keep := Elements(columns);
    assert KeepCols == [KeepCols[0]] + KeepCols[1..];
    SelectAppend([KeepCols[0]], KeepCols[1..], keep);
    assert Select([KeepCols[0]], keep) == Select([], keep) + ["patient_id"];
  }
}
