// The validator as it runs, one check after the other, against what a valid
// document is; and where its walk lets a reference stand, said by paths.
module SbomValidate {
  import opened Common
  import opened Text
  import opened SbomDocument

  // ------------------------------------------------------------------ texts

  predicate InIdAlphabet(c: char) {
    c in "ABCDEFGHIJKLMNOPQRSTUVWXYZ" || c in "abcdefghijklmnopqrstuvwxyz" || c in "0123456789.-"
  }

  ghost predicate IdWith(s: string, rest: string) {
    s == "SPDXRef-" + rest && rest != "" && forall c :: c in rest ==> InIdAlphabet(c)
  }

  lemma UpperLetters(c: char)
    ensures 'A' <= c <= 'Z' <==> c in "ABCDEFGHIJKLMNOPQRSTUVWXYZ"
  {
  }

  lemma LowerLetters(c: char)
    ensures 'a' <= c <= 'z' <==> c in "abcdefghijklmnopqrstuvwxyz"
  {
  }

  lemma IdCharacters(c: char)
    ensures IdChar(c) <==> InIdAlphabet(c)
  {
    UpperLetters(c);
    LowerLetters(c);
    assert IsDigit(c) || c == '.' || c == '-' <==> c in "0123456789.-";
  }

  /** An identifier is legal exactly when it is the prefix and letters, digits,
      dots and hyphens, at least one of them. */
  lemma LegalIdIff(s: string)
    ensures LegalId(s) <==> exists rest :: IdWith(s, rest)
  {
    hide IdChar, InIdAlphabet;
    if LegalId(s) {
      var rest := s[|PREFIX|..];
      forall c | c in rest ensures InIdAlphabet(c) {
        var i :| 0 <= i < |rest| && rest[i] == c;
        assert s[|PREFIX| + i] == c;
        IdCharacters(c);
      }
      assert IdWith(s, rest);
    }
    if rest :| IdWith(s, rest) {
      forall i | |PREFIX| <= i < |s| ensures IdChar(s[i]) {
        assert s[i] == rest[i - |PREFIX|] && s[i] in rest;
        IdCharacters(s[i]);
      }
    }
  }

  /** A digest is 64 hexadecimal digits in lower case. */
  lemma LegalDigestIff(s: string)
    ensures LegalDigest(s) <==> |s| == 64 && forall c :: c in s ==> c in "0123456789abcdef"
  {
    if |s| == 64 && forall c :: c in s ==> c in "0123456789abcdef" {
      forall i | 0 <= i < |s| ensures 'a' <= s[i] <= 'f' || IsDigit(s[i]) {
        assert s[i] in s;
      }
    }
  }

  // --------------------------------------------------------------- the walk

  // Where the walk is: at an object or list the schema puts references in, or anywhere else.
  datatype Place =
    | Document | Packages | PackageItem | Files | FileItem | Relations | RelationItem | Elsewhere

  function Inside(place: Place, key: string): Place {
    if !place.Document? then Elsewhere
    else if key == "packages" then Packages
    else if key == "files" then Files
    else if key == "relationships" then Relations
    else Elsewhere
  }

  function Element(place: Place): Place {
    match place
    case Packages => PackageItem
    case Files => FileItem
    case Relations => RelationItem
    case _ => Elsewhere
  }

  predicate Allowed(place: Place, key: string) {
    match place
    case Document => key == "SPDXID" || key == "documentDescribes"
    case PackageItem => key == "SPDXID" || key == "hasFiles"
    case FileItem => key == "SPDXID" || key == "fileDependencies"
    case RelationItem => key == "spdxElementId" || key == "relatedSpdxElement"
    case _ => false
  }

  /** `walk`: every reference key below a value stands where it is allowed. */
  predicate Walk(v: Json, place: Place) {
    match v
    case Obj(f) =>
      forall key :: key in f ==> (key in REFERENCE_KEYS ==> Allowed(place, key)) && Walk(f[key], Inside(place, key))
    case Arr(items) => forall i :: 0 <= i < |items| ==> Walk(items[i], Element(place))
    case _ => true
  }

  // A way down from a value to one below it.
  datatype Step = Key(name: string) | Index(i: nat)

  function At(v: Json, path: seq<Step>): Option<Json>
    decreases |path|
  {
    if path == [] then Some(v)
    else
      match path[0]
      case Key(name) => if v.Obj? && name in v.fields then At(v.fields[name], path[1..]) else None
      case Index(i) => if v.Arr? && i < |v.items| then At(v.items[i], path[1..]) else None
  }

  function PlaceAt(place: Place, path: seq<Step>): Place
    decreases |path|
  {
    if path == [] then place else PlaceAt(Next(place, path[0]), path[1..])
  }

  function Next(place: Place, step: Step): Place {
    match step case Key(name) => Inside(place, name) case Index(_) => Element(place)
  }

  // An object with this key stands at the end of the path.
  predicate Standing(v: Json, path: seq<Step>, key: string) {
    var found := At(v, path);
    found.Some? && found.value.Obj? && key in found.value.fields
  }

  predicate IsReference(key: string) {
    key in ["SPDXID", "spdxElementId", "relatedSpdxElement", "documentDescribes", "hasFiles", "fileDependencies",
            "snippetFromFile", "reference"]
  }

  ghost predicate AllInPlace(v: Json, place: Place) {
    forall path, key :: Standing(v, path, key) && IsReference(key) ==> Allowed(PlaceAt(place, path), key)
  }

  lemma WalkedInPlace(v: Json, place: Place, path: seq<Step>, key: string)
    requires Walk(v, place) && Standing(v, path, key) && IsReference(key)
    ensures Allowed(PlaceAt(place, path), key)
    decreases |path|
  {
    hide Allowed;
    if path != [] {
      match path[0]
      case Key(name) => WalkedInPlace(v.fields[name], Inside(place, name), path[1..], key);
      case Index(i) => WalkedInPlace(v.items[i], Element(place), path[1..], key);
    }
  }

  lemma BelowKey(f: Fields, place: Place, name: string)
    requires AllInPlace(Obj(f), place) && name in f
    ensures AllInPlace(f[name], Inside(place, name))
  {
    hide Allowed, Inside;
    forall path, key | Standing(f[name], path, key) && IsReference(key)
      ensures Allowed(PlaceAt(Inside(place, name), path), key)
    {
      var longer := [Key(name)] + path;
      assert longer[0] == Key(name) && longer[1..] == path;
      assert Standing(Obj(f), longer, key);
    }
  }

  lemma BelowIndex(items: seq<Json>, place: Place, i: nat)
    requires AllInPlace(Arr(items), place) && i < |items|
    ensures AllInPlace(items[i], Element(place))
  {
    hide Allowed, Element;
    forall path, key | Standing(items[i], path, key) && IsReference(key)
      ensures Allowed(PlaceAt(Element(place), path), key)
    {
      var longer := [Index(i)] + path;
      assert longer[0] == Index(i) && longer[1..] == path;
      assert Standing(Arr(items), longer, key);
    }
  }

  lemma {:induction false} InPlaceWalks(v: Json, place: Place)
    requires AllInPlace(v, place)
    ensures Walk(v, place)
  {
    hide AllInPlace, Allowed, Inside, Element;
    match v
    case Obj(f) =>
      forall key | key in f
        ensures (key in REFERENCE_KEYS ==> Allowed(place, key)) && Walk(f[key], Inside(place, key))
      {
        BelowKey(f, place, key);
        InPlaceWalks(f[key], Inside(place, key));
        HereInPlace(f, place, key);
      }
    case Arr(items) =>
      forall i | 0 <= i < |items| ensures Walk(items[i], Element(place)) {
        BelowIndex(items, place, i);
        InPlaceWalks(items[i], Element(place));
      }
    case _ =>
  }

  lemma HereInPlace(f: Fields, place: Place, key: string)
    requires AllInPlace(Obj(f), place) && key in f
    ensures key in REFERENCE_KEYS ==> Allowed(place, key)
  {
    assert Standing(Obj(f), [], key);
  }

  // Where the schema puts a reference: in the document, in a package or a file, or in a relationship.
  predicate InSchema(path: seq<Step>, key: string) {
    || (path == [] && key in ["SPDXID", "documentDescribes"])
    || (|path| == 2 && path[1].Index? && path[0] == Key("packages") && key in ["SPDXID", "hasFiles"])
    || (|path| == 2 && path[1].Index? && path[0] == Key("files") && key in ["SPDXID", "fileDependencies"])
    || (|path| == 2 && path[1].Index? && path[0] == Key("relationships")
        && key in ["spdxElementId", "relatedSpdxElement"])
  }

  lemma {:induction false} ElsewhereStays(path: seq<Step>)
    ensures PlaceAt(Elsewhere, path) == Elsewhere
    decreases |path|
  {
    if path != [] {
      ElsewhereStays(path[1..]);
    }
  }

  lemma AllowedIff(path: seq<Step>, key: string)
    ensures Allowed(PlaceAt(Document, path), key) <==> InSchema(path, key)
  {
    if |path| >= 1 {
      var first := Next(Document, path[0]);
      assert PlaceAt(Document, path) == PlaceAt(first, path[1..]);
      if |path| >= 2 {
        var second := Next(first, path[1]);
        assert path[1..][1..] == path[2..] && PlaceAt(first, path[1..]) == PlaceAt(second, path[2..]);
        if |path| >= 3 {
          assert PlaceAt(second, path[2..]) == PlaceAt(Next(second, path[2]), path[2..][1..]);
          ElsewhereStays(path[2..][1..]);
        }
      }
    }
  }

  /** The walk passes exactly when every reference key anywhere in the document,
      at the end of whatever path, stands where the schema puts it. */
  lemma WalkIff(f: Fields)
    ensures Walk(Obj(f), Document)
       <==> forall path, key :: Standing(Obj(f), path, key) && IsReference(key) ==> InSchema(path, key)
  {
    hide Walk, Allowed, PlaceAt, InSchema, Standing;
    forall path, key ensures Allowed(PlaceAt(Document, path), key) <==> InSchema(path, key) {
      AllowedIff(path, key);
    }
    if Walk(Obj(f), Document) {
      forall path, key | Standing(Obj(f), path, key) && IsReference(key) ensures InSchema(path, key) {
        WalkedInPlace(Obj(f), Document, path, key);
      }
    } else if AllInPlace(Obj(f), Document) {
      InPlaceWalks(Obj(f), Document);
    }
  }

  // The walk by the parts of the document, as validity says it.
  ghost predicate WalksAll(items: seq<Json>, allowed: set<string>) {
    forall i :: 0 <= i < |items| ==> items[i].Obj? && Walks(items[i].fields, allowed)
  }

  lemma {:induction false} WalkElsewhere(v: Json)
    ensures Walk(v, Elsewhere) <==> NoReferences(v)
  {
    match v
    case Obj(f) =>
      forall key | key in f ensures Walk(f[key], Elsewhere) <==> NoReferences(f[key]) {
        WalkElsewhere(f[key]);
      }
    case Arr(items) =>
      forall i | 0 <= i < |items| ensures Walk(items[i], Elsewhere) <==> NoReferences(items[i]) {
        WalkElsewhere(items[i]);
      }
    case _ =>
  }

  lemma WalkObject(f: Fields, place: Place, allowed: set<string>)
    requires place !in {Document, Packages, Files, Relations}
    requires forall key :: Allowed(place, key) <==> key in allowed
    ensures Walk(Obj(f), place) <==> Walks(f, allowed)
  {
    hide Allowed, NoReferences;
    forall key | key in f ensures Walk(f[key], Inside(place, key)) <==> NoReferences(f[key]) {
      WalkElsewhere(f[key]);
    }
  }

  lemma WalkItems(items: seq<Json>, place: Place, allowed: set<string>)
    requires place in {Packages, Files, Relations} && Objects(Arr(items))
    requires forall key :: Allowed(Element(place), key) <==> key in allowed
    ensures Walk(Arr(items), place) <==> WalksAll(items, allowed)
  {
    hide Allowed, Walks;
    forall i | 0 <= i < |items|
      ensures Walk(items[i], Element(place)) <==> items[i].Obj? && Walks(items[i].fields, allowed)
    {
      WalkObject(items[i].fields, Element(place), allowed);
    }
  }

  lemma WalkDocument(f: Fields)
    requires ValidShape(f)
    ensures Walk(Obj(f), Document) <==>
      && WalksTop(f)
      && WalksAll(f["packages"].items, {"SPDXID", "hasFiles"})
      && WalksAll(GetList(f, "files").items, {"SPDXID", "fileDependencies"})
      && WalksAll(f["relationships"].items, {"spdxElementId", "relatedSpdxElement"})
  {
    hide Walk, NoReferences, WalksAll;
    WalkItems(f["packages"].items, Packages, {"SPDXID", "hasFiles"});
    WalkItems(GetList(f, "files").items, Files, {"SPDXID", "fileDependencies"});
    WalkItems(f["relationships"].items, Relations, {"spdxElementId", "relatedSpdxElement"});
    WalkFields(f);
    NothingWalks({"SPDXID", "fileDependencies"});
    forall key | key in f && key !in {"packages", "files", "relationships"}
      ensures Walk(f[key], Inside(Document, key)) <==> NoReferences(f[key])
    {
      WalkElsewhere(f[key]);
    }
  }

  lemma WalkFields(f: Fields)
    ensures Walk(Obj(f), Document) <==> forall key :: key in f ==>
      (key in REFERENCE_KEYS ==> Allowed(Document, key)) && Walk(f[key], Inside(Document, key))
  {
  }

  lemma NothingWalks(allowed: set<string>)
    ensures WalksAll([], allowed)
  {
  }

  // ------------------------------------------------------------- the checks

  method CheckObjects(v: Json) returns (ok: bool)
    ensures ok <==> Objects(v)
  {
    if !v.Arr? {
      return false;
    }
    for i := 0 to |v.items|
      invariant forall j :: 0 <= j < i ==> v.items[j].Obj?
    {
      if !v.items[i].Obj? {
        return false;
      }
    }
    return true;
  }

  method CheckHead(f: Fields) returns (ok: bool)
    ensures ok <==> ValidHead(f)
  {
    if f.Keys - TOP_KEYS != {} {
      return false;
    }
    assert f.Keys <= TOP_KEYS;
    if Get(f, "spdxVersion") != Str("SPDX-2.3") || Get(f, "dataLicense") != Str("CC0-1.0")
       || Get(f, "SPDXID") != Str("SPDXRef-DOCUMENT") {
      return false;
    }
    if !NonEmpty(Get(f, "name")) || !NonEmpty(Get(f, "documentNamespace")) {
      return false;
    }
    var info := Get(f, "creationInfo");
    if !info.Obj? || !Get(info.fields, "creators").Arr? || Get(info.fields, "creators").items == [] {
      return false;
    }
    if !NonEmpty(Get(info.fields, "created")) {
      return false;
    }
    var creators := Get(info.fields, "creators").items;
    for i := 0 to |creators|
      invariant forall j :: 0 <= j < i ==> NonEmpty(creators[j])
    {
      if !NonEmpty(creators[i]) {
        return false;
      }
    }
    return true;
  }

  method CheckShape(f: Fields) returns (ok: bool)
    ensures ok <==> ValidShape(f)
  {
    var packages := CheckObjects(Get(f, "packages"));
    var files := CheckObjects(GetList(f, "files"));
    var relations := CheckObjects(Get(f, "relationships"));
    if !packages || !files || !relations {
      return false;
    }
    return !(|f["packages"].items| < 2 || f["relationships"].items == []);
  }

  ghost predicate SetOf(xs: set<string>, values: seq<string>) {
    forall x :: x in xs <==> x in values
  }

  lemma {:induction false} SizeTells(xs: set<string>, values: seq<string>)
    requires SetOf(xs, values)
    ensures |xs| <= |values| && (|xs| == |values| <==> Distinct(values))
    decreases |values|
  {
    if values == [] {
      assert xs == {};
    } else {
      var n := |values| - 1;
      var front, last := values[..n], values[n];
      assert values == front + [last];
      if last in front {
        SizeTells(xs, front);
      } else {
        SizeTells(xs - {last}, front);
        assert xs == xs - {last} + {last};
      }
    }
  }

  /** The identifiers of the elements, when all are legal and none is repeated. */
  method ReadIdentifiers(elements: seq<Json>) returns (ids: Option<seq<string>>)
    requires Objects(Arr(elements))
    ensures ids.Some? <==> ValidIds(elements) && Distinct(Ids(elements))
    ensures ids.Some? ==> ids.value == Ids(elements)
  {
    hide LegalId, Distinct, Get;
    var values: seq<string> := [];
    var unique: set<string> := {};
    for i := 0 to |elements|
      invariant |values| == i && SetOf(unique, values)
      invariant forall j :: 0 <= j < i ==> Get(elements[j].fields, "SPDXID") == Str(values[j])
    {
      var value := Get(elements[i].fields, "SPDXID");
      if !NonEmpty(value) {
        assert !ValidId(elements[i]) by { EmptyIsNotLegal(elements[i]); }
        return None;
      }
      values := values + [value.text];
      unique := unique + {value.text};
    }
    for i := 0 to |values|
      invariant forall j :: 0 <= j < i ==> LegalId(values[j])
    {
      if !LegalId(values[i]) {
        assert !ValidId(elements[i]);
        return None;
      }
    }
    assert values == Ids(elements);
    SizeTells(unique, values);
    if |unique| != |values| {
      return None;
    }
    return Some(values);
  }

  lemma EmptyIsNotLegal(item: Json)
    ensures ValidId(item) ==> NonEmpty(Get(item.fields, "SPDXID"))
  {
  }

  // ----------------------------------------------------------- the references

  predicate Refers(v: Json, known: set<string>) {
    v.Str? && v.text in known
  }

  predicate AllRefer(v: Json, known: set<string>) {
    v.Arr? && forall i :: 0 <= i < |v.items| ==> Refers(v.items[i], known)
  }

  predicate ItemRefers(item: Json, key: string, known: set<string>) {
    && item.Obj? && Refers(Get(item.fields, "SPDXID"), known)
    && (key in item.fields ==> AllRefer(item.fields[key], known))
  }

  predicate RelationRefers(relation: Json, known: set<string>) {
    && relation.Obj? && Refers(Get(relation.fields, "spdxElementId"), known)
    && (Refers(Get(relation.fields, "relatedSpdxElement"), known)
        || Get(relation.fields, "relatedSpdxElement") in {Str("NONE"), Str("NOASSERTION")})
  }

  // A value in one slot: a string that names an element, or a token where one is allowed.
  method CheckSlot(v: Json, key: string, known: set<string>) returns (ok: bool)
    requires "" !in known
    ensures ok <==> Refers(v, known) || (key == "relatedSpdxElement" && v in {Str("NONE"), Str("NOASSERTION")})
  {
    if !NonEmpty(v) {
      return false;
    }
    if v.text !in known && !(key == "relatedSpdxElement" && v.text in ["NONE", "NOASSERTION"]) {
      return false;
    }
    return true;
  }

  method CheckList(v: Json, known: set<string>) returns (ok: bool)
    requires "" !in known
    ensures ok <==> AllRefer(v, known)
  {
    if !v.Arr? {
      return false;
    }
    for i := 0 to |v.items|
      invariant forall j :: 0 <= j < i ==> Refers(v.items[j], known)
    {
      var named := CheckSlot(v.items[i], "", known);
      if !named {
        return false;
      }
    }
    return true;
  }

  method CheckItemReferences(items: seq<Json>, key: string, known: set<string>) returns (ok: bool)
    requires "" !in known && Objects(Arr(items))
    ensures ok <==> forall i :: 0 <= i < |items| ==> ItemRefers(items[i], key, known)
  {
    hide AllRefer, Refers;
    for i := 0 to |items|
      invariant forall j :: 0 <= j < i ==> ItemRefers(items[j], key, known)
    {
      var f := items[i].fields;
      var named := CheckSlot(Get(f, "SPDXID"), "SPDXID", known);
      if !named {
        return false;
      }
      if key in f {
        var listed := CheckList(f[key], known);
        if !listed {
          return false;
        }
      }
    }
    return true;
  }

  method CheckRelationReferences(relations: seq<Json>, known: set<string>) returns (ok: bool)
    requires "" !in known && Objects(Arr(relations))
    ensures ok <==> forall i :: 0 <= i < |relations| ==> RelationRefers(relations[i], known)
  {
    hide Refers;
    for i := 0 to |relations|
      invariant forall j :: 0 <= j < i ==> RelationRefers(relations[j], known)
    {
      var f := relations[i].fields;
      var from := CheckSlot(Get(f, "spdxElementId"), "spdxElementId", known);
      var to := CheckSlot(Get(f, "relatedSpdxElement"), "relatedSpdxElement", known);
      if !from || !to {
        return false;
      }
    }
    return true;
  }

  /** Every slot of the document, in order, names an element. */
  method CheckReferences(f: Fields, known: set<string>) returns (ok: bool)
    requires ValidShape(f) && "" !in known
    ensures ok <==>
      && Refers(Get(f, "SPDXID"), known)
      && (forall i :: 0 <= i < |f["packages"].items| ==> ItemRefers(f["packages"].items[i], "hasFiles", known))
      && (forall i :: 0 <= i < |GetList(f, "files").items| ==>
            ItemRefers(GetList(f, "files").items[i], "fileDependencies", known))
      && (forall i :: 0 <= i < |f["relationships"].items| ==> RelationRefers(f["relationships"].items[i], known))
      && ("documentDescribes" in f ==> AllRefer(f["documentDescribes"], known))
  {
    hide AllRefer, Refers, ItemRefers, RelationRefers;
    var here := CheckSlot(Get(f, "SPDXID"), "SPDXID", known);
    var packages := CheckItemReferences(f["packages"].items, "hasFiles", known);
    var files := CheckItemReferences(GetList(f, "files").items, "fileDependencies", known);
    var relations := CheckRelationReferences(f["relationships"].items, known);
    if !here || !packages || !files || !relations {
      return false;
    }
    if "documentDescribes" in f {
      ok := CheckList(f["documentDescribes"], known);
    } else {
      ok := true;
    }
  }

  // ------------------------------------------------------- names and checksums

  // Packages are named and point at files only.
  method CheckPackages(packages: seq<Json>, fileIds: set<string>) returns (ok: bool)
    requires "" !in fileIds && forall i :: 0 <= i < |packages| ==>
      packages[i].Obj? && ("hasFiles" in packages[i].fields ==> packages[i].fields["hasFiles"].Arr?)
    ensures ok <==> forall i :: 0 <= i < |packages| ==>
      && ValidNames(packages[i].fields, Package)
      && ("hasFiles" in packages[i].fields ==> AllRefer(packages[i].fields["hasFiles"], fileIds))
  {
    hide AllRefer;
    for i := 0 to |packages|
      invariant forall j :: 0 <= j < i ==>
        && ValidNames(packages[j].fields, Package)
        && ("hasFiles" in packages[j].fields ==> AllRefer(packages[j].fields["hasFiles"], fileIds))
    {
      var f := packages[i].fields;
      if !NonEmpty(Get(f, "name")) || !NonEmpty(Get(f, "downloadLocation")) {
        return false;
      }
      if "hasFiles" in f {
        var listed := CheckList(f["hasFiles"], fileIds);
        if !listed {
          return false;
        }
      }
    }
    return true;
  }

  method CheckFiles(files: seq<Json>, fileIds: set<string>) returns (ok: bool)
    requires "" !in fileIds && forall i :: 0 <= i < |files| ==>
      files[i].Obj? && ("fileDependencies" in files[i].fields ==> files[i].fields["fileDependencies"].Arr?)
    ensures ok <==> forall i :: 0 <= i < |files| ==>
      && ValidNames(files[i].fields, File)
      && ("fileDependencies" in files[i].fields ==> AllRefer(files[i].fields["fileDependencies"], fileIds))
  {
    hide AllRefer;
    for i := 0 to |files|
      invariant forall j :: 0 <= j < i ==>
        && ValidNames(files[j].fields, File)
        && ("fileDependencies" in files[j].fields ==> AllRefer(files[j].fields["fileDependencies"], fileIds))
    {
      var f := files[i].fields;
      if !NonEmpty(Get(f, "fileName")) {
        return false;
      }
      if "fileDependencies" in f {
        var listed := CheckList(f["fileDependencies"], fileIds);
        if !listed {
          return false;
        }
      }
    }
    return true;
  }

  method CheckSums(f: Fields) returns (ok: bool)
    ensures ok <==> ValidChecksums(f)
  {
    var sums := GetList(f, "checksums");
    var objects := CheckObjects(sums);
    if !objects {
      return false;
    }
    for i := 0 to |sums.items|
      invariant forall j :: 0 <= j < i ==>
        NonEmpty(Get(sums.items[j].fields, "algorithm")) && NonEmpty(Get(sums.items[j].fields, "checksumValue"))
    {
      if !NonEmpty(Get(sums.items[i].fields, "algorithm")) || !NonEmpty(Get(sums.items[i].fields, "checksumValue")) {
        return false;
      }
    }
    return true;
  }

  method CheckAllSums(items: seq<Json>) returns (ok: bool)
    requires Objects(Arr(items))
    ensures ok <==> forall i :: 0 <= i < |items| ==> ValidChecksums(items[i].fields)
  {
    hide ValidChecksums;
    for i := 0 to |items|
      invariant forall j :: 0 <= j < i ==> ValidChecksums(items[j].fields)
    {
      var valid := CheckSums(items[i].fields);
      if !valid {
        return false;
      }
    }
    return true;
  }

  method CheckTypes(relations: seq<Json>) returns (ok: bool)
    requires Objects(Arr(relations))
    ensures ok <==> forall i :: 0 <= i < |relations| ==> NonEmpty(Get(relations[i].fields, "relationshipType"))
  {
    for i := 0 to |relations|
      invariant forall j :: 0 <= j < i ==> NonEmpty(Get(relations[j].fields, "relationshipType"))
    {
      if !NonEmpty(Get(relations[i].fields, "relationshipType")) {
        return false;
      }
    }
    return true;
  }

  // ---------------------------------------------------------------- the image

  // What the rest of a list yields, and what all of it does once none is left.
  lemma DescribedFrom(relations: seq<Json>, i: nat)
    requires i < |relations|
    ensures Described(relations[i..])
         == (if IsDescription(relations[i]) then [Get(relations[i].fields, "relatedSpdxElement")] else [])
            + Described(relations[i + 1..])
  {
    assert relations[i..][1..] == relations[i + 1..];
  }

  lemma RootsFrom(packages: seq<Json>, i: nat)
    requires i < |packages|
    ensures Roots(packages[i..]) == (if IsRoot(packages[i]) then [packages[i]] else []) + Roots(packages[i + 1..])
  {
    assert packages[i..][1..] == packages[i + 1..];
  }

  lemma DigestsFrom(sums: seq<Json>, i: nat)
    requires i < |sums| && sums[i].Obj?
    ensures Sha256(sums[i..])
         == (if Get(sums[i].fields, "algorithm") == Str("SHA256")
             then [Get(sums[i].fields, "checksumValue")] else [])
            + Sha256(sums[i + 1..])
  {
    assert sums[i..][1..] == sums[i + 1..];
  }

  lemma NothingFound()
    ensures Described([]) == [] && Roots([]) == [] && Sha256([]) == []
  {
  }

  method FindDescribed(relations: seq<Json>) returns (described: seq<Json>)
    requires Objects(Arr(relations))
    ensures described == Described(relations)
  {
    hide Described;
    described := [];
    assert relations[0..] == relations;
    for i := 0 to |relations|
      invariant described + Described(relations[i..]) == Described(relations)
    {
      var f := relations[i].fields;
      DescribedFrom(relations, i);
      if Get(f, "spdxElementId") == Str("SPDXRef-DOCUMENT") && Get(f, "relationshipType") == Str("DESCRIBES") {
        described := described + [Get(f, "relatedSpdxElement")];
      }
    }
    NothingFound();
    assert relations[|relations|..] == [];
  }

  method FindRoots(packages: seq<Json>) returns (roots: seq<Json>)
    requires Objects(Arr(packages))
    ensures roots == Roots(packages)
  {
    hide Roots;
    roots := [];
    assert packages[0..] == packages;
    for i := 0 to |packages|
      invariant roots + Roots(packages[i..]) == Roots(packages)
    {
      RootsFrom(packages, i);
      if Get(packages[i].fields, "primaryPackagePurpose") == Str("CONTAINER") {
        roots := roots + [packages[i]];
      }
    }
    NothingFound();
    assert packages[|packages|..] == [];
  }

  method FindDigests(sums: seq<Json>) returns (digests: seq<Json>)
    requires Objects(Arr(sums))
    ensures digests == Sha256(sums)
  {
    hide Sha256;
    digests := [];
    assert sums[0..] == sums;
    for i := 0 to |sums|
      invariant digests + Sha256(sums[i..]) == Sha256(sums)
    {
      DigestsFrom(sums, i);
      if Get(sums[i].fields, "algorithm") == Str("SHA256") {
        digests := digests + [Get(sums[i].fields, "checksumValue")];
      }
    }
    NothingFound();
    assert sums[|sums|..] == [];
  }

  method CheckRoot(f: Fields) returns (ok: bool)
    requires ValidShape(f)
    requires forall i :: 0 <= i < |f["packages"].items| ==> ValidChecksums(f["packages"].items[i].fields)
    ensures ok <==> ValidRoot(f, f["packages"].items, f["relationships"].items)
  {
    hide Described, Roots, Sha256;
    var described := FindDescribed(f["relationships"].items);
    var roots := FindRoots(f["packages"].items);
    if |roots| != 1 {
      return false;
    }
    assert roots[0] in roots && roots[0] in f["packages"].items;
    if described != [Get(roots[0].fields, "SPDXID")] {
      return false;
    }
    if "documentDescribes" in f && f["documentDescribes"] != Arr(described) {
      return false;
    }
    var digests := FindDigests(GetList(roots[0].fields, "checksums").items);
    return |digests| == 1 && digests[0].Str? && LegalDigest(digests[0].text);
  }

  // ------------------------------------------------- the checks together

  // One element, as the separate passes see it.
  ghost predicate ItemPasses(item: Json, kind: Kind, known: set<string>, fileIds: set<string>) {
    && ItemRefers(item, RefKey(kind), known)
    && ValidNames(item.fields, kind)
    && (RefKey(kind) in item.fields ==> AllRefer(item.fields[RefKey(kind)], fileIds))
    && ValidChecksums(item.fields)
    && Walks(item.fields, {"SPDXID", RefKey(kind)})
  }

  ghost predicate RelationPasses(relation: Json, known: set<string>) {
    && RelationRefers(relation, known)
    && NonEmpty(Get(relation.fields, "relationshipType"))
    && Walks(relation.fields, {"spdxElementId", "relatedSpdxElement"})
  }

  lemma ItemIff(item: Json, kind: Kind, known: set<string>, fileIds: set<string>, ids: seq<string>)
    requires ValidId(item) && Id(item) in known && fileIds <= known && SetOf(fileIds, ids)
    ensures ItemPasses(item, kind, known, fileIds) <==> ValidItem(item, kind, ids)
  {
    hide ValidNames, ValidChecksums, Walks, LegalId;
  }

  lemma RelationIff(relation: Json, known: set<string>, ids: seq<string>)
    requires SetOf(known, ids)
    ensures RelationPasses(relation, known) <==> ValidRelation(relation, ids)
  {
    hide Walks, NonEmpty;
  }

  lemma ItemsIff(items: seq<Json>, kind: Kind, known: set<string>, fileIds: set<string>, ids: seq<string>)
    requires ValidIds(items) && fileIds <= known && SetOf(fileIds, ids)
    requires forall i :: 0 <= i < |items| ==> Id(items[i]) in known
    ensures (forall i :: 0 <= i < |items| ==> ItemPasses(items[i], kind, known, fileIds))
       <==> ValidItems(items, kind, ids)
  {
    hide ItemPasses, ValidItem, ValidId, Id;
    forall i | 0 <= i < |items|
      ensures ItemPasses(items[i], kind, known, fileIds) <==> ValidItem(items[i], kind, ids)
    {
      ItemIff(items[i], kind, known, fileIds, ids);
    }
  }

  lemma RelationsIff(relations: seq<Json>, known: set<string>, ids: seq<string>)
    requires SetOf(known, ids)
    ensures (forall i :: 0 <= i < |relations| ==> RelationPasses(relations[i], known))
       <==> ValidRelations(relations, ids)
  {
    hide RelationPasses, ValidRelation;
    forall i | 0 <= i < |relations|
      ensures RelationPasses(relations[i], known) <==> ValidRelation(relations[i], ids)
    {
      RelationIff(relations[i], known, ids);
    }
  }

  lemma DescribesIff(v: Json, known: set<string>, ids: seq<string>)
    requires SetOf(known, ids)
    ensures AllRefer(v, known) <==> ValidRefs(v, ids)
  {
  }

  // The elements of a document in their order, and their identifiers.
  function Elements(f: Fields): seq<Json>
    requires ValidShape(f)
  {
    [Obj(f)] + (f["packages"].items + GetList(f, "files").items)
  }

  lemma IdsConcat(a: seq<Json>, b: seq<Json>)
    ensures ValidIds(a + b) <==> ValidIds(a) && ValidIds(b)
    ensures ValidIds(a) && ValidIds(b) ==> Ids(a + b) == Ids(a) + Ids(b)
  {
    hide ValidId, Id;
    var all := a + b;
    assert forall i :: 0 <= i < |a| ==> all[i] == a[i];
    assert forall i :: 0 <= i < |b| ==> all[|a| + i] == b[i];
    if ValidIds(all) {
      forall i | 0 <= i < |b| ensures ValidId(b[i]) {
        assert ValidId(all[|a| + i]);
      }
    }
  }

  lemma ObjectsConcat(a: seq<Json>, b: seq<Json>)
    requires Objects(Arr(a)) && Objects(Arr(b))
    ensures Objects(Arr(a + b))
  {
  }

  lemma OneId(item: Json)
    ensures ValidIds([item]) <==> ValidId(item)
    ensures ValidId(item) ==> Ids([item]) == [Id(item)]
    ensures Objects(Arr([item])) <==> item.Obj?
  {
    hide ValidId;
    assert [item][0] == item;
  }

  lemma ElementsAre(f: Fields)
    requires ValidHead(f) && ValidShape(f)
    ensures Objects(Arr(Elements(f)))
    ensures ValidIds(Elements(f)) <==> ValidElements(f)
    ensures ValidElements(f) ==>
      Ids(Elements(f)) == Identifiers(f) && Identifiers(f)[1 + |f["packages"].items|..] == FileIds(f)
  {
    hide ValidHead, LegalId, ValidIds, Objects, Ids;
    HeadNames(f);
    DocumentIsLegal();
    PackagesStand(f);
    var packages, files := f["packages"].items, GetList(f, "files").items;
    IdsConcat(packages, files);
    IdsConcat([Obj(f)], packages + files);
    OneId(Obj(f));
    ObjectsConcat(packages, files);
    ObjectsConcat([Obj(f)], packages + files);
  }

  lemma HeadNames(f: Fields)
    requires ValidHead(f)
    ensures Get(f, "SPDXID") == Str(DOCUMENT)
  {
  }

  lemma DocumentIsLegal()
    ensures LegalId(DOCUMENT)
  {
  }

  lemma OwnIds(f: Fields, known: set<string>, fileIds: set<string>)
    requires ValidElements(f) && SetOf(known, Identifiers(f)) && SetOf(fileIds, FileIds(f))
    ensures fileIds <= known && DOCUMENT in known
    ensures forall i :: 0 <= i < |f["packages"].items| ==> Id(f["packages"].items[i]) in known
    ensures forall i :: 0 <= i < |GetList(f, "files").items| ==> Id(GetList(f, "files").items[i]) in known
  {
    hide ValidId;
    var packages, files := f["packages"].items, GetList(f, "files").items;
    forall i | 0 <= i < |packages| ensures Id(packages[i]) in known {
      assert Identifiers(f)[1 + i] == Ids(packages)[i];
    }
    forall i | 0 <= i < |files| ensures Id(files[i]) in known {
      assert Identifiers(f)[1 + |packages| + i] == Ids(files)[i];
    }
    forall x | x in fileIds ensures x in known {
      var i :| 0 <= i < |files| && FileIds(f)[i] == x;
    }
    assert Identifiers(f)[0] == DOCUMENT;
  }

  // Everything the separate passes establish once the identifiers are read.
  ghost predicate Passes(f: Fields, known: set<string>, fileIds: set<string>)
    requires ValidElements(f)
  {
    && WalksTop(f)
    && (forall i :: 0 <= i < |f["packages"].items| ==> ItemPasses(f["packages"].items[i], Package, known, fileIds))
    && (forall i :: 0 <= i < |GetList(f, "files").items| ==>
          ItemPasses(GetList(f, "files").items[i], File, known, fileIds))
    && (forall i :: 0 <= i < |f["relationships"].items| ==> RelationPasses(f["relationships"].items[i], known))
    && ("documentDescribes" in f ==> AllRefer(f["documentDescribes"], known))
    && ValidRoot(f, f["packages"].items, f["relationships"].items)
  }

  lemma PassesIff(f: Fields, known: set<string>, fileIds: set<string>)
    requires ValidHead(f) && ValidElements(f) && Distinct(Identifiers(f))
    requires SetOf(known, Identifiers(f)) && SetOf(fileIds, FileIds(f))
    ensures Passes(f, known, fileIds) <==> Valid(f)
  {
    hide ValidHead, ValidIds, ItemPasses, RelationPasses, ValidItems, ValidRelations, ValidRoot, WalksTop, Distinct,
      AllRefer, ValidRefs, SetOf, Id;
    OwnIds(f, known, fileIds);
    ItemsIff(f["packages"].items, Package, known, fileIds, FileIds(f));
    ItemsIff(GetList(f, "files").items, File, known, fileIds, FileIds(f));
    RelationsIff(f["relationships"].items, known, Identifiers(f));
    if "documentDescribes" in f {
      DescribesIff(f["documentDescribes"], known, Identifiers(f));
    }
  }

  /** The passes over a document whose identifiers are read. */
  method RunPasses(f: Fields, known: set<string>, fileIds: set<string>) returns (ok: bool)
    requires ValidHead(f) && ValidElements(f)
    requires SetOf(known, Identifiers(f)) && SetOf(fileIds, FileIds(f)) && "" !in known
    ensures ok <==> Passes(f, known, fileIds)
  {
    hide ValidHead, ValidIds, ValidRoot, WalksTop, AllRefer, SetOf, Walks, ValidNames, ValidChecksums,
      RelationRefers, Walk;
    var packages, files, relations := f["packages"].items, GetList(f, "files").items, f["relationships"].items;
    OwnIds(f, known, fileIds);
    HeadNames(f);
    WalkDocument(f);
    if !Walk(Obj(f), Document) {
      return false;
    }
    var named := CheckReferences(f, known);
    if !named {
      return false;
    }
    ListsStand(packages, "hasFiles", known);
    ListsStand(files, "fileDependencies", known);
    var first := CheckPackages(packages, fileIds);
    if !first {
      return false;
    }
    var second := CheckFiles(files, fileIds);
    if !second {
      return false;
    }
    var firstSums := CheckAllSums(packages);
    var secondSums := CheckAllSums(files);
    if !firstSums || !secondSums {
      return false;
    }
    var typed := CheckTypes(relations);
    if !typed {
      return false;
    }
    ok := CheckRoot(f);
  }

  lemma ListsStand(items: seq<Json>, key: string, known: set<string>)
    requires forall i :: 0 <= i < |items| ==> ItemRefers(items[i], key, known)
    ensures forall i :: 0 <= i < |items| ==>
      items[i].Obj? && (key in items[i].fields ==> items[i].fields[key].Arr?)
  {
  }

  /** `validate`: it accepts exactly the valid documents, and returns their
      identifiers in document order. */
  method Validate(doc: Json) returns (r: Option<seq<string>>)
    ensures r.Some? <==> doc.Obj? && Valid(doc.fields)
    ensures r.Some? ==> r.value == Identifiers(doc.fields)
  {
    hide ValidHead, Passes, Distinct, Identifiers, FileIds, Objects, ValidIds, Ids, SetOf;
    if !doc.Obj? {
      return None;
    }
    var f := doc.fields;
    var head := CheckHead(f);
    if !head {
      return None;
    }
    var shape := CheckShape(f);
    if !shape {
      return None;
    }
    ElementsAre(f);
    PackagesStand(f);
    var ids := ReadIdentifiers(Elements(f));
    if ids.None? {
      return None;
    }
    var known, fileIds := AsSet(ids.value), AsSet(ids.value[1 + |f["packages"].items|..]);
    assert "" !in known by { NoEmptyId(f); }
    PassesIff(f, known, fileIds);
    var passes := RunPasses(f, known, fileIds);
    if !passes {
      return None;
    }
    return ids;
  }

  lemma PackagesStand(f: Fields)
    requires ValidShape(f)
    ensures "packages" in f && f["packages"].Arr? && GetList(f, "files").Arr?
  {
  }

  function AsSet(values: seq<string>): (xs: set<string>)
    ensures SetOf(xs, values)
  {
    set x | x in values
  }

  lemma NoEmptyId(f: Fields)
    requires ValidElements(f)
    ensures "" !in Identifiers(f)
  {
    forall i | 0 <= i < |Identifiers(f)| ensures Identifiers(f)[i] != "" {
      if i > 0 {
        var all := f["packages"].items + GetList(f, "files").items;
        assert ValidId(all[i - 1]) && Identifiers(f)[i] == Id(all[i - 1]);
      }
    }
  }
}
