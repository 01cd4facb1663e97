// SPDX documents as the inventory adapter accepts them: the JSON tree, the
// validator, and the renaming of identifiers in their schema-defined places.
module SbomDocument {
  import opened Common
  import opened Text

  datatype Json =
    | Null
    | Bool(flag: bool)
    | Number(digits: string)
    | Str(text: string)
    | Arr(items: seq<Json>)
    | Obj(fields: map<string, Json>)

  type Fields = map<string, Json>

  const DOCUMENT: string := "SPDXRef-DOCUMENT"
  const PREFIX: string := "SPDXRef-"

  const TOP_KEYS: set<string> := {
    "spdxVersion", "dataLicense", "SPDXID", "name", "documentNamespace", "creationInfo", "packages", "files",
    "hasExtractedLicensingInfos", "relationships", "documentDescribes", "annotations", "comment"}

  const REFERENCE_KEYS: set<string> := {
    "SPDXID", "spdxElementId", "relatedSpdxElement", "documentDescribes", "hasFiles", "fileDependencies",
    "snippetFromFile", "reference"}

  // ------------------------------------------------------------- reading

  // `dict.get(key)`: absent and null read alike.
  function Get(f: Fields, key: string): Json {
    if key in f then f[key] else Null
  }

  // `dict.get(key, [])`.
  function GetList(f: Fields, key: string): Json {
    if key in f then f[key] else Arr([])
  }

  predicate NonEmpty(v: Json) {
    v.Str? && v.text != ""
  }

  predicate Objects(v: Json) {
    v.Arr? && forall i :: 0 <= i < |v.items| ==> v.items[i].Obj?
  }

  predicate IdChar(c: char) {
    IsLetter(c) || IsDigit(c) || c == '.' || c == '-'
  }

  // `SPDXRef-[A-Za-z0-9.-]+\Z`
  predicate LegalId(s: string) {
    && |PREFIX| < |s| && s[..|PREFIX|] == PREFIX
    && forall i :: |PREFIX| <= i < |s| ==> IdChar(s[i])
  }

  // `sha256:[a-f0-9]{64}\Z`, behind its prefix.
  predicate LegalDigest(s: string) {
    |s| == 64 && forall i :: 0 <= i < |s| ==> 'a' <= s[i] <= 'f' || IsDigit(s[i])
  }

  // The two collections that hold elements, and the reference list of each.
  datatype Kind = Package | File

  function RefKey(kind: Kind): string {
    if kind.Package? then "hasFiles" else "fileDependencies"
  }

  // ----------------------------------------------------------- the walk

  // Below here no schema-defined reference may stand.
  predicate NoReferences(v: Json) {
    match v
    case Obj(f) => forall key :: key in f ==> key !in REFERENCE_KEYS && NoReferences(f[key])
    case Arr(items) => forall i :: 0 <= i < |items| ==> NoReferences(items[i])
    case _ => true
  }

  predicate Walks(f: Fields, allowed: set<string>) {
    forall key :: key in f ==> (key in REFERENCE_KEYS ==> key in allowed) && NoReferences(f[key])
  }

  // ------------------------------------------------------------ validation

  predicate ValidHead(f: Fields) {
    && f.Keys <= {"spdxVersion", "dataLicense", "SPDXID", "name", "documentNamespace", "creationInfo", "packages",
                  "files", "hasExtractedLicensingInfos", "relationships", "documentDescribes", "annotations", "comment"}
    && Get(f, "spdxVersion") == Str("SPDX-2.3")
    && Get(f, "dataLicense") == Str("CC0-1.0")
    && Get(f, "SPDXID") == Str(DOCUMENT)
    && NonEmpty(Get(f, "name"))
    && NonEmpty(Get(f, "documentNamespace"))
    && ValidInfo(Get(f, "creationInfo"))
  }

  predicate ValidInfo(info: Json) {
    && info.Obj?
    && NonEmpty(Get(info.fields, "created"))
    && var creators := Get(info.fields, "creators");
       creators.Arr? && creators.items != [] && forall i :: 0 <= i < |creators.items| ==> NonEmpty(creators.items[i])
  }

  predicate ValidId(item: Json) {
    item.Obj? && Get(item.fields, "SPDXID").Str? && LegalId(Get(item.fields, "SPDXID").text)
  }

  function Id(item: Json): string
    requires ValidId(item)
  {
    Get(item.fields, "SPDXID").text
  }

  function Ids(items: seq<Json>): (ids: seq<string>)
    requires ValidIds(items)
    ensures |ids| == |items|
    ensures forall i :: 0 <= i < |items| ==> ids[i] == Id(items[i])
  {
    seq(|items|, i requires 0 <= i < |items| => Id(items[i]))
  }

  // A list of references, every one to an element of `known`.
  predicate ValidRefs(v: Json, known: seq<string>) {
    v.Arr? && forall i :: 0 <= i < |v.items| ==> v.items[i].Str? && v.items[i].text in known
  }

  predicate ValidChecksums(f: Fields) {
    var sums := GetList(f, "checksums");
    && Objects(sums)
    && forall i :: 0 <= i < |sums.items| ==>
         NonEmpty(Get(sums.items[i].fields, "algorithm")) && NonEmpty(Get(sums.items[i].fields, "checksumValue"))
  }

  predicate ValidNames(f: Fields, kind: Kind) {
    match kind
    case Package => NonEmpty(Get(f, "name")) && NonEmpty(Get(f, "downloadLocation"))
    case File => NonEmpty(Get(f, "fileName"))
  }

  predicate ValidItem(item: Json, kind: Kind, fileIds: seq<string>) {
    && item.Obj?
    && (RefKey(kind) in item.fields ==> ValidRefs(item.fields[RefKey(kind)], fileIds))
    && ValidNames(item.fields, kind)
    && ValidChecksums(item.fields)
    && Walks(item.fields, {"SPDXID", RefKey(kind)})
  }

  // What a relation may end in besides an element.
  predicate IsToken(s: string) {
    s == "NONE" || s == "NOASSERTION"
  }

  predicate ValidRelation(relation: Json, known: seq<string>) {
    && relation.Obj?
    && var f := relation.fields;
    && Get(f, "spdxElementId").Str? && Get(f, "spdxElementId").text in known
    && Get(f, "relatedSpdxElement").Str?
    && (Get(f, "relatedSpdxElement").text in known || IsToken(Get(f, "relatedSpdxElement").text))
    && NonEmpty(Get(f, "relationshipType"))
    && Walks(f, {"spdxElementId", "relatedSpdxElement"})
  }

  predicate IsDescription(relation: Json) {
    && relation.Obj?
    && Get(relation.fields, "spdxElementId") == Str(DOCUMENT)
    && Get(relation.fields, "relationshipType") == Str("DESCRIBES")
  }

  function Described(relations: seq<Json>): seq<Json> {
    if relations == [] then []
    else (if IsDescription(relations[0]) then [Get(relations[0].fields, "relatedSpdxElement")] else [])
         + Described(relations[1..])
  }

  predicate IsRoot(package: Json) {
    package.Obj? && Get(package.fields, "primaryPackagePurpose") == Str("CONTAINER")
  }

  function Roots(packages: seq<Json>): (roots: seq<Json>)
    ensures forall r :: r in roots ==> r in packages && IsRoot(r)
  {
    if packages == [] then []
    else (if IsRoot(packages[0]) then [packages[0]] else []) + Roots(packages[1..])
  }

  function Sha256(sums: seq<Json>): seq<Json> {
    if sums == [] then []
    else (if sums[0].Obj? && Get(sums[0].fields, "algorithm") == Str("SHA256")
          then [Get(sums[0].fields, "checksumValue")] else [])
         + Sha256(sums[1..])
  }

  predicate ValidDigest(root: Json) {
    && root.Obj? && ValidChecksums(root.fields)
    && var digests := Sha256(GetList(root.fields, "checksums").items);
    |digests| == 1 && digests[0].Str? && LegalDigest(digests[0].text)
  }

  // Exactly one container image, which is the one described.
  predicate ValidRoot(f: Fields, packages: seq<Json>, relations: seq<Json>) {
    var roots := Roots(packages);
    && |roots| == 1
    && ValidDigest(roots[0])
    && Described(relations) == [Get(roots[0].fields, "SPDXID")]
    && ("documentDescribes" in f ==> f["documentDescribes"] == Arr(Described(relations)))
  }

  predicate ValidShape(f: Fields) {
    && Objects(Get(f, "packages")) && Objects(GetList(f, "files")) && Objects(Get(f, "relationships"))
    && |f["packages"].items| >= 2 && f["relationships"].items != []
  }

  // Every top-level field outside the three walked collections.
  predicate WalksTop(f: Fields) {
    forall key :: key in f && key !in {"packages", "files", "relationships"} ==>
      (key in REFERENCE_KEYS ==> key in {"SPDXID", "documentDescribes"}) && NoReferences(f[key])
  }

  predicate ValidIds(items: seq<Json>) {
    forall i :: 0 <= i < |items| ==> ValidId(items[i])
  }

  predicate ValidElements(f: Fields) {
    ValidShape(f) && ValidIds(f["packages"].items) && ValidIds(GetList(f, "files").items)
  }

  function FileIds(f: Fields): seq<string>
    requires ValidElements(f)
  {
    Ids(GetList(f, "files").items)
  }

  function Identifiers(f: Fields): (ids: seq<string>)
    requires ValidElements(f)
    ensures ids != [] && ids[0] == DOCUMENT
  {
    [DOCUMENT] + (Ids(f["packages"].items) + FileIds(f))
  }

  predicate ValidItems(items: seq<Json>, kind: Kind, fileIds: seq<string>) {
    forall i :: 0 <= i < |items| ==> ValidItem(items[i], kind, fileIds)
  }

  predicate ValidRelations(relations: seq<Json>, known: seq<string>) {
    forall i :: 0 <= i < |relations| ==> ValidRelation(relations[i], known)
  }

  predicate Valid(f: Fields): (valid: bool)
    ensures valid ==> ValidElements(f)
  {
    && ValidHead(f)
    && ValidElements(f)
    && Distinct(Identifiers(f))
    && WalksTop(f)
    && ("documentDescribes" in f ==> ValidRefs(f["documentDescribes"], Identifiers(f)))
    && ValidItems(f["packages"].items, Package, FileIds(f))
    && ValidItems(GetList(f, "files").items, File, FileIds(f))
    && ValidRelations(f["relationships"].items, Identifiers(f))
    && ValidRoot(f, f["packages"].items, f["relationships"].items)
  }

  // -------------------------------------------------------------- renaming

  type Renaming = map<string, string>

  // `mapping.get(value, value)` on one slot.
  function Rename(v: Json, m: Renaming): Json {
    if v.Str? && v.text in m then Str(m[v.text]) else v
  }

  function RenameAll(items: seq<Json>, m: Renaming): (renamed: seq<Json>)
    ensures |renamed| == |items|
    ensures forall i :: 0 <= i < |items| ==> renamed[i] == Rename(items[i], m)
  {
    seq(|items|, i requires 0 <= i < |items| => Rename(items[i], m))
  }

  // One slot of an object, when the object has it.
  function RenameAt(f: Fields, key: string, m: Renaming): Fields {
    if key in f then f[key := Rename(f[key], m)] else f
  }

  // A list of slots, when the object has one.
  function RenameList(f: Fields, key: string, m: Renaming): Fields {
    if key in f && f[key].Arr? then f[key := Arr(RenameAll(f[key].items, m))] else f
  }

  function RenameItem(item: Json, kind: Kind, m: Renaming): (renamed: Json)
    ensures renamed.Obj? == item.Obj?
  {
    if item.Obj? then Obj(RenameList(RenameAt(item.fields, "SPDXID", m), RefKey(kind), m)) else item
  }

  function RenameItems(items: seq<Json>, kind: Kind, m: Renaming): (renamed: seq<Json>)
    ensures |renamed| == |items|
    ensures forall i :: 0 <= i < |items| ==> renamed[i] == RenameItem(items[i], kind, m)
  {
    seq(|items|, i requires 0 <= i < |items| => RenameItem(items[i], kind, m))
  }

  function RenameRelation(relation: Json, m: Renaming): (renamed: Json)
    ensures renamed.Obj? == relation.Obj?
  {
    if relation.Obj? then
      Obj(RenameAt(RenameAt(relation.fields, "spdxElementId", m), "relatedSpdxElement", m))
    else relation
  }

  function RenameRelations(relations: seq<Json>, m: Renaming): (renamed: seq<Json>)
    ensures |renamed| == |relations|
    ensures forall i :: 0 <= i < |relations| ==> renamed[i] == RenameRelation(relations[i], m)
  {
    seq(|relations|, i requires 0 <= i < |relations| => RenameRelation(relations[i], m))
  }

  function RenameCollection(f: Fields, key: string, rename: seq<Json> -> seq<Json>): Fields {
    if key in f && f[key].Arr? then f[key := Arr(rename(f[key].items))] else f
  }

  /** The document with every schema-defined identifier slot renamed. */
  function RenameDocument(f: Fields, m: Renaming): Fields {
    var g := RenameAt(f, "SPDXID", m);
    var g := RenameCollection(g, "packages", items => RenameItems(items, Package, m));
    var g := RenameCollection(g, "files", items => RenameItems(items, File, m));
    var g := RenameCollection(g, "relationships", items => RenameRelations(items, m));
    RenameList(g, "documentDescribes", m)
  }
}
