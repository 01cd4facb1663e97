// Renaming an accepted document: it stays accepted, and the inverse mapping
// brings back exactly the document it came from.
module SbomRenaming {
  import opened Common
  import opened SbomDocument

  function Image(s: string, m: Renaming): string {
    if s in m then m[s] else s
  }

  ghost predicate OneToOne(m: Renaming) {
    forall s, t :: s in m && t in m && m[s] == m[t] ==> s == t
  }

  ghost predicate NamesLegally(m: Renaming) {
    forall s :: s in m ==> LegalId(s) && LegalId(m[s]) && m[s] != DOCUMENT
  }

  ghost predicate NamesAll(m: Renaming, ids: seq<string>) {
    forall s :: s in m <==> s in ids
  }

  // Every element but the document itself gets a legal name of its own.
  ghost predicate Renames(m: Renaming, ids: seq<string>) {
    && ids != [] && ids[0] == DOCUMENT && DOCUMENT !in m
    && NamesAll(m, ids[1..]) && NamesLegally(m) && OneToOne(m)
  }

  function Images(ids: seq<string>, m: Renaming): (images: seq<string>)
    ensures |images| == |ids|
    ensures forall i :: 0 <= i < |ids| ==> images[i] == Image(ids[i], m)
  {
    seq(|ids|, i requires 0 <= i < |ids| => Image(ids[i], m))
  }

  lemma ImageKeepsNames(s: string, m: Renaming, ids: seq<string>)
    requires Renames(m, ids)
    ensures LegalId(s) ==> LegalId(Image(s, m))
    ensures Image(s, m) == DOCUMENT <==> s == DOCUMENT
    ensures IsToken(s) ==> Image(s, m) == s
  {
  }

  lemma ImageOfMember(s: string, ids: seq<string>, m: Renaming)
    ensures s in ids ==> Image(s, m) in Images(ids, m)
  {
    if s in ids {
      var i :| 0 <= i < |ids| && ids[i] == s;
      assert Images(ids, m)[i] == Image(s, m);
    }
  }

  // -------------------------------------------------------------- one item

  lemma ItemFields(f: Fields, kind: Kind, m: Renaming)
    ensures var g := RenameItem(Obj(f), kind, m).fields;
      && g.Keys == f.Keys
      && Get(g, "SPDXID") == Rename(Get(f, "SPDXID"), m)
      && (RefKey(kind) in f && f[RefKey(kind)].Arr? ==>
            g[RefKey(kind)] == Arr(RenameAll(f[RefKey(kind)].items, m)))
      && forall key :: key in f && key != "SPDXID" && key != RefKey(kind) ==> g[key] == f[key]
  {
  }

  lemma NamesUnchanged(f: Fields, g: Fields, kind: Kind)
    requires f.Keys == g.Keys
    requires forall key :: key in f && key != "SPDXID" && key != RefKey(kind) ==> g[key] == f[key]
    ensures ValidNames(g, kind) == ValidNames(f, kind)
    ensures ValidChecksums(g) == ValidChecksums(f)
    ensures GetList(g, "checksums") == GetList(f, "checksums")
    ensures Get(g, "primaryPackagePurpose") == Get(f, "primaryPackagePurpose")
  {
    hide ValidChecksums, NonEmpty;
    assert GetList(g, "checksums") == GetList(f, "checksums");
    ChecksumsFollow(f, g);
  }

  lemma ChecksumsFollow(f: Fields, g: Fields)
    requires GetList(g, "checksums") == GetList(f, "checksums")
    ensures ValidChecksums(g) == ValidChecksums(f)
  {
  }

  lemma RefsStayValid(v: Json, known: seq<string>, m: Renaming)
    requires ValidRefs(v, known)
    ensures ValidRefs(Arr(RenameAll(v.items, m)), Images(known, m))
    ensures NoReferences(Arr(RenameAll(v.items, m)))
  {
    forall i | 0 <= i < |v.items|
      ensures RenameAll(v.items, m)[i] == Str(Image(v.items[i].text, m))
      ensures Image(v.items[i].text, m) in Images(known, m)
    {
      ImageOfMember(v.items[i].text, known, m);
    }
  }

  lemma ItemStaysValid(item: Json, kind: Kind, m: Renaming, ids: seq<string>, fileIds: seq<string>)
    requires Renames(m, ids) && ValidId(item) && ValidItem(item, kind, fileIds)
    ensures ValidId(RenameItem(item, kind, m)) && Id(RenameItem(item, kind, m)) == Image(Id(item), m)
    ensures ValidItem(RenameItem(item, kind, m), kind, Images(fileIds, m))
  {
    hide Renames, RenameItem, ValidNames, ValidChecksums, ValidRefs, LegalId, NoReferences, RenameAll;
    var f, g, key := item.fields, RenameItem(item, kind, m).fields, RefKey(kind);
    ItemFields(f, kind, m);
    ImageKeepsNames(Id(item), m, ids);
    NamesUnchanged(f, g, kind);
    if key in f {
      RefsAreList(f[key], fileIds);
      RefsStayValid(f[key], fileIds, m);
    }
    StringHasNoReferences(Image(Id(item), m));
  }

  lemma RefsAreList(v: Json, known: seq<string>)
    requires ValidRefs(v, known)
    ensures v.Arr?
  {
  }

  lemma StringHasNoReferences(s: string)
    ensures NoReferences(Str(s))
  {
  }

  // ---------------------------------------------------------- one relation

  lemma RelationFields(f: Fields, m: Renaming)
    ensures var g := RenameRelation(Obj(f), m).fields;
      && g.Keys == f.Keys
      && Get(g, "spdxElementId") == Rename(Get(f, "spdxElementId"), m)
      && Get(g, "relatedSpdxElement") == Rename(Get(f, "relatedSpdxElement"), m)
      && forall key :: key in f && key != "spdxElementId" && key != "relatedSpdxElement" ==> g[key] == f[key]
  {
  }

  lemma RelationStaysValid(relation: Json, m: Renaming, ids: seq<string>)
    requires Renames(m, ids) && ValidRelation(relation, ids)
    ensures ValidRelation(RenameRelation(relation, m), Images(ids, m))
    ensures IsDescription(RenameRelation(relation, m)) == IsDescription(relation)
    ensures Get(RenameRelation(relation, m).fields, "relatedSpdxElement")
         == Rename(Get(relation.fields, "relatedSpdxElement"), m)
  {
    hide Renames, RenameRelation, NonEmpty, NoReferences, LegalId, Images, IsToken;
    var f, g := relation.fields, RenameRelation(relation, m).fields;
    RelationFields(f, m);
    var source, target := Get(f, "spdxElementId").text, Get(f, "relatedSpdxElement").text;
    ImageKeepsNames(source, m, ids);
    ImageKeepsNames(target, m, ids);
    ImageOfMember(source, ids, m);
    ImageOfMember(target, ids, m);
    StringHasNoReferences(Image(source, m));
    StringHasNoReferences(Image(target, m));
    assert Get(g, "relationshipType") == Get(f, "relationshipType");
  }

  lemma {:induction false} DescribedFollows(relations: seq<Json>, m: Renaming, ids: seq<string>)
    requires Renames(m, ids) && ValidRelations(relations, ids)
    ensures Described(RenameRelations(relations, m)) == RenameAll(Described(relations), m)
  {
    hide Renames, ValidRelation, IsDescription;
    if relations != [] {
      RelationStaysValid(relations[0], m, ids);
      assert RenameRelations(relations, m)[1..] == RenameRelations(relations[1..], m);
      DescribedFollows(relations[1..], m, ids);
    }
  }

  lemma {:induction false} RootsFollow(packages: seq<Json>, m: Renaming)
    ensures Roots(RenameItems(packages, Package, m)) == RenameItems(Roots(packages), Package, m)
  {
    hide IsRoot, RenameItem;
    if packages != [] {
      var rest := packages[1..];
      RootStays(packages[0], m);
      assert RenameItems(packages, Package, m)[1..] == RenameItems(rest, Package, m);
      RootsFollow(rest, m);
      assert RenameItems([packages[0]] + Roots(rest), Package, m)
          == [RenameItem(packages[0], Package, m)] + RenameItems(Roots(rest), Package, m);
    }
  }

  lemma RootStays(package: Json, m: Renaming)
    ensures IsRoot(RenameItem(package, Package, m)) == IsRoot(package)
  {
    if package.Obj? {
      ItemFields(package.fields, Package, m);
    }
  }

  lemma DigestStays(root: Json, m: Renaming)
    requires ValidDigest(root)
    ensures ValidDigest(RenameItem(root, Package, m))
  {
    hide ValidChecksums, NonEmpty, LegalDigest, Sha256, RenameItem;
    ItemFields(root.fields, Package, m);
    NamesUnchanged(root.fields, RenameItem(root, Package, m).fields, Package);
  }

  // ---------------------------------------------------------- the document

  lemma DocumentFields(f: Fields, m: Renaming)
    requires ValidShape(f) && DOCUMENT !in m && Get(f, "SPDXID") == Str(DOCUMENT)
    ensures var g := RenameDocument(f, m);
      && g.Keys == f.Keys
      && ValidShape(g)
      && g["packages"] == Arr(RenameItems(f["packages"].items, Package, m))
      && GetList(g, "files") == Arr(RenameItems(GetList(f, "files").items, File, m))
      && g["relationships"] == Arr(RenameRelations(f["relationships"].items, m))
      && ("documentDescribes" in f && f["documentDescribes"].Arr? ==>
            g["documentDescribes"] == Arr(RenameAll(f["documentDescribes"].items, m)))
      && forall key :: key in f && key !in {"packages", "files", "relationships", "documentDescribes"} ==>
           g[key] == f[key]
  {
    hide RenameItem, RenameRelation, RenameCollection, RenameItems, RenameRelations, RenameAll, Objects, ValidShape;
    ShapeParts(f);
    var g0 := RenameAt(f, "SPDXID", m);
    assert g0 == f;
    CollectionFields(f, "packages", items => RenameItems(items, Package, m));
    var g1 := RenameCollection(f, "packages", items => RenameItems(items, Package, m));
    CollectionFields(g1, "files", items => RenameItems(items, File, m));
    var g2 := RenameCollection(g1, "files", items => RenameItems(items, File, m));
    CollectionFields(g2, "relationships", items => RenameRelations(items, m));
    ShapeFollows(f, RenameDocument(f, m), m);
  }

  lemma ShapeParts(f: Fields)
    requires ValidShape(f)
    ensures "packages" in f && f["packages"].Arr? && "relationships" in f && f["relationships"].Arr?
    ensures "files" in f ==> f["files"].Arr?
  {
  }

  lemma ShapeFollows(f: Fields, g: Fields, m: Renaming)
    requires ValidShape(f)
    requires Get(g, "packages") == Arr(RenameItems(f["packages"].items, Package, m))
    requires GetList(g, "files") == Arr(RenameItems(GetList(f, "files").items, File, m))
    requires Get(g, "relationships") == Arr(RenameRelations(f["relationships"].items, m))
    ensures ValidShape(g)
  {
    hide RenameItem, RenameRelation;
  }

  lemma CollectionFields(f: Fields, key: string, rename: seq<Json> -> seq<Json>)
    ensures var g := RenameCollection(f, key, rename);
      && g.Keys == f.Keys
      && (key in f && f[key].Arr? ==> g[key] == Arr(rename(f[key].items)))
      && forall other :: other in f && other != key ==> g[other] == f[other]
  {
  }

  lemma IdsFollow(items: seq<Json>, kind: Kind, m: Renaming, ids: seq<string>)
    requires Renames(m, ids) && ValidIds(items)
    ensures ValidIds(RenameItems(items, kind, m))
    ensures Ids(RenameItems(items, kind, m)) == Images(Ids(items), m)
  {
    hide Renames, ValidId, RenameItem, Image;
    forall i | 0 <= i < |items|
      ensures ValidId(RenameItems(items, kind, m)[i])
      ensures Id(RenameItems(items, kind, m)[i]) == Image(Id(items[i]), m)
    {
      ItemIdFollows(items[i], kind, m, ids);
    }
  }

  lemma ImagesConcat(us: seq<string>, vs: seq<string>, m: Renaming)
    ensures Images(us + vs, m) == Images(us, m) + Images(vs, m)
  {
  }

  lemma ElementsFollow(f: Fields, m: Renaming)
    requires ValidElements(f) && Get(f, "SPDXID") == Str(DOCUMENT) && Renames(m, Identifiers(f))
    ensures ValidElements(RenameDocument(f, m))
    ensures Identifiers(RenameDocument(f, m)) == Images(Identifiers(f), m)
    ensures FileIds(RenameDocument(f, m)) == Images(FileIds(f), m)
  {
    hide Renames, RenameDocument, RenameItems, ValidIds, Ids, Image, Images;
    NotRenamed(m, Identifiers(f));
    DocumentFields(f, m);
    IdsFollow(f["packages"].items, Package, m, Identifiers(f));
    IdsFollow(GetList(f, "files").items, File, m, Identifiers(f));
    ImagesConcat(Ids(f["packages"].items), FileIds(f), m);
    ImagesConcat([DOCUMENT], Ids(f["packages"].items) + FileIds(f), m);
    ImageOfDocument(m, Identifiers(f));
  }

  lemma ImageOfDocument(m: Renaming, ids: seq<string>)
    requires Renames(m, ids)
    ensures Images([DOCUMENT], m) == [DOCUMENT]
  {
  }

  lemma NotRenamed(m: Renaming, ids: seq<string>)
    requires Renames(m, ids)
    ensures DOCUMENT !in m
  {
  }

  lemma ItemIdFollows(item: Json, kind: Kind, m: Renaming, ids: seq<string>)
    requires Renames(m, ids) && ValidId(item)
    ensures ValidId(RenameItem(item, kind, m)) && Id(RenameItem(item, kind, m)) == Image(Id(item), m)
  {
    hide Renames, LegalId, RenameItem;
    ItemFields(item.fields, kind, m);
    ImageKeepsNames(Id(item), m, ids);
  }

  lemma ImagesStayDistinct(ids: seq<string>, m: Renaming)
    requires Distinct(ids) && Renames(m, ids)
    ensures Distinct(Images(ids, m))
  {
    forall i, j | 0 <= i < j < |ids| ensures Image(ids[i], m) != Image(ids[j], m) {
      assert ids[j] == ids[1..][j - 1];
      if i > 0 {
        assert ids[i] == ids[1..][i - 1];
      }
    }
  }

  lemma HeadStays(f: Fields, g: Fields)
    requires ValidHead(f) && g.Keys == f.Keys
    requires forall key :: key in f && key !in {"packages", "files", "relationships", "documentDescribes"} ==>
      g[key] == f[key]
    ensures ValidHead(g)
  {
    hide ValidInfo, NonEmpty;
    assert forall key :: key !in {"packages", "files", "relationships", "documentDescribes"} ==>
      Get(g, key) == Get(f, key);
  }

  lemma WalkStays(f: Fields, g: Fields)
    requires WalksTop(f) && g.Keys == f.Keys
    requires forall key :: key in f && key !in {"packages", "files", "relationships", "documentDescribes"} ==>
      g[key] == f[key]
    requires "documentDescribes" in g ==> NoReferences(g["documentDescribes"])
    ensures WalksTop(g)
  {
    hide NoReferences;
  }

  lemma ItemsStayValid(items: seq<Json>, kind: Kind, m: Renaming, ids: seq<string>, fileIds: seq<string>)
    requires Renames(m, ids) && ValidItems(items, kind, fileIds) && ValidIds(items)
    ensures ValidItems(RenameItems(items, kind, m), kind, Images(fileIds, m))
  {
    hide Renames, ValidItem, ValidId;
    forall i | 0 <= i < |items|
      ensures ValidItem(RenameItems(items, kind, m)[i], kind, Images(fileIds, m))
    {
      ItemStaysValid(items[i], kind, m, ids, fileIds);
    }
  }

  lemma RelationsStayValid(relations: seq<Json>, m: Renaming, ids: seq<string>)
    requires Renames(m, ids) && ValidRelations(relations, ids)
    ensures ValidRelations(RenameRelations(relations, m), Images(ids, m))
  {
    hide Renames, ValidRelation;
    forall i | 0 <= i < |relations|
      ensures ValidRelation(RenameRelations(relations, m)[i], Images(ids, m))
    {
      RelationStaysValid(relations[i], m, ids);
    }
  }

  lemma RootStaysValid(f: Fields, g: Fields, packages: seq<Json>, relations: seq<Json>, m: Renaming, ids: seq<string>)
    requires Renames(m, ids) && ValidRelations(relations, ids)
    requires ValidRoot(f, packages, relations) && g.Keys == f.Keys
    requires "documentDescribes" in f && f["documentDescribes"].Arr? ==>
      g["documentDescribes"] == Arr(RenameAll(f["documentDescribes"].items, m))
    ensures ValidRoot(g, RenameItems(packages, Package, m), RenameRelations(relations, m))
  {
    hide Renames, ValidRelations, ValidDigest, RenameItem, Described, Roots;
    DescribedFollows(relations, m, ids);
    RootsFollow(packages, m);
    var root := Roots(packages)[0];
    DigestStays(root, m);
    assert root in Roots(packages) && IsRoot(root);
    ItemFields(root.fields, Package, m);
    assert Roots(RenameItems(packages, Package, m)) == [RenameItem(root, Package, m)];
    assert RenameAll(Described(relations), m) == [Rename(Get(root.fields, "SPDXID"), m)];
  }

  /** Renaming through any such mapping keeps a valid document valid, and its
      identifiers are the images of the old ones, in order. */
  lemma StaysValid(f: Fields, m: Renaming)
    requires Valid(f) && Renames(m, Identifiers(f))
    ensures Valid(RenameDocument(f, m))
    ensures Identifiers(RenameDocument(f, m)) == Images(Identifiers(f), m)
  {
    hide Renames, ValidItems, ValidRelations, ValidRoot, ValidHead, WalksTop, Distinct, RenameDocument,
      Identifiers, FileIds, ValidRefs;
    var g, ids, fileIds := RenameDocument(f, m), Identifiers(f), FileIds(f);
    NotRenamed(m, ids);
    HeadNames(f);
    DocumentFields(f, m);
    ElementsFollow(f, m);
    ImagesStayDistinct(ids, m);
    HeadStays(f, g);
    if "documentDescribes" in f {
      RefsAreList(f["documentDescribes"], ids);
      RefsStayValid(f["documentDescribes"], ids, m);
    }
    WalkStays(f, g);
    ItemsStayValid(f["packages"].items, Package, m, ids, fileIds);
    ItemsStayValid(GetList(f, "files").items, File, m, ids, fileIds);
    RelationsStayValid(f["relationships"].items, m, ids);
    RootStaysValid(f, g, f["packages"].items, f["relationships"].items, m, ids);
  }

  lemma HeadNames(f: Fields)
    requires ValidHead(f)
    ensures Get(f, "SPDXID") == Str(DOCUMENT)
  {
  }

  // ------------------------------------------------------- and back again

  // The inverse dictionary.
  ghost predicate Inverts(n: Renaming, m: Renaming) {
    && (forall s :: s in m ==> m[s] in n && n[m[s]] == s)
    && forall t :: t in n ==> exists s :: s in m && m[s] == t
  }

  predicate Renamable(s: string, ids: seq<string>) {
    s in ids || IsToken(s)
  }

  lemma ImageBack(s: string, m: Renaming, n: Renaming, ids: seq<string>)
    requires Renames(m, ids) && Inverts(n, m) && Renamable(s, ids)
    ensures Image(Image(s, m), n) == s
  {
    if IsToken(s) {
      TokenSpared(s, m, n, ids);
    } else if s !in m {
      assert ids == [ids[0]] + ids[1..];
      InverseSparesDocument(m, n, ids);
    }
  }

  lemma TokenSpared(s: string, m: Renaming, n: Renaming, ids: seq<string>)
    requires Renames(m, ids) && Inverts(n, m) && IsToken(s)
    ensures s !in m && s !in n
  {
    assert PREFIX[0] == 'S';
    assert |s| > |PREFIX| ==> s[..|PREFIX|][0] == 'N';
    assert !LegalId(s);
  }

  lemma SlotBack(v: Json, m: Renaming, n: Renaming, ids: seq<string>)
    requires Renames(m, ids) && Inverts(n, m)
    requires v.Str? && Renamable(v.text, ids)
    ensures Rename(Rename(v, m), n) == v
  {
    hide Renames, Inverts;
    ImageBack(v.text, m, n, ids);
  }

  lemma ListBack(v: Json, m: Renaming, n: Renaming, ids: seq<string>)
    requires Renames(m, ids) && Inverts(n, m) && ValidRefs(v, ids)
    ensures RenameAll(RenameAll(v.items, m), n) == v.items
  {
    hide Renames, Inverts, Rename;
    forall i | 0 <= i < |v.items| ensures Rename(Rename(v.items[i], m), n) == v.items[i] {
      SlotBack(v.items[i], m, n, ids);
    }
  }

  lemma ItemBack(item: Json, kind: Kind, m: Renaming, n: Renaming, ids: seq<string>)
    requires Renames(m, ids) && Inverts(n, m)
    requires ValidId(item) && Id(item) in ids
    requires RefKey(kind) in item.fields ==> ValidRefs(item.fields[RefKey(kind)], ids)
    ensures RenameItem(RenameItem(item, kind, m), kind, n) == item
  {
    hide Renames, Inverts, RenameItem, Rename, RenameAll, ValidRefs, LegalId;
    var f, key := item.fields, RefKey(kind);
    var g := RenameItem(item, kind, m).fields;
    var h := RenameItem(Obj(g), kind, n).fields;
    ItemFields(f, kind, m);
    ItemFields(g, kind, n);
    SlotBack(Get(f, "SPDXID"), m, n, ids);
    if key in f {
      RefsAreList(f[key], ids);
      ListBack(f[key], m, n, ids);
    }
    assert h == f;
  }

  lemma RelationBack(relation: Json, m: Renaming, n: Renaming, ids: seq<string>)
    requires Renames(m, ids) && Inverts(n, m) && ValidRelation(relation, ids)
    ensures RenameRelation(RenameRelation(relation, m), n) == relation
  {
    hide Renames, Inverts, RenameRelation, Rename, Walks, NonEmpty, IsToken;
    var f := relation.fields;
    var g := RenameRelation(relation, m).fields;
    var h := RenameRelation(Obj(g), n).fields;
    RelationFields(f, m);
    RelationFields(g, n);
    SlotBack(Get(f, "spdxElementId"), m, n, ids);
    SlotBack(Get(f, "relatedSpdxElement"), m, n, ids);
    assert h == f;
  }

  lemma ItemsBack(items: seq<Json>, kind: Kind, m: Renaming, n: Renaming, ids: seq<string>)
    requires Renames(m, ids) && Inverts(n, m)
    requires ValidIds(items) && ValidItems(items, kind, ids)
    requires forall i :: 0 <= i < |items| ==> Ids(items)[i] in ids
    ensures RenameItems(RenameItems(items, kind, m), kind, n) == items
  {
    hide Renames, Inverts, RenameItem, ValidRefs, ValidId, ValidNames, ValidChecksums, Walks;
    forall i | 0 <= i < |items|
      ensures RenameItem(RenameItem(items[i], kind, m), kind, n) == items[i]
    {
      assert ValidItem(items[i], kind, ids);
      assert ValidId(items[i]) && Ids(items)[i] == Id(items[i]);
      ItemBack(items[i], kind, m, n, ids);
    }
  }

  lemma RelationsBack(relations: seq<Json>, m: Renaming, n: Renaming, ids: seq<string>)
    requires Renames(m, ids) && Inverts(n, m) && ValidRelations(relations, ids)
    ensures RenameRelations(RenameRelations(relations, m), n) == relations
  {
    hide Renames, Inverts, RenameRelation, ValidRelation;
    forall i | 0 <= i < |relations|
      ensures RenameRelation(RenameRelation(relations[i], m), n) == relations[i]
    {
      RelationBack(relations[i], m, n, ids);
    }
  }

  lemma RefsWiden(items: seq<Json>, kind: Kind, few: seq<string>, many: seq<string>)
    requires ValidItems(items, kind, few) && forall s :: s in few ==> s in many
    ensures ValidItems(items, kind, many)
  {
    hide ValidNames, ValidChecksums, Walks;
    forall i | 0 <= i < |items| ensures ValidItem(items[i], kind, many) {
      assert ValidItem(items[i], kind, few);
    }
  }

  lemma Among<T>(x: T, us: seq<T>, vs: seq<T>)
    ensures forall u :: u in us ==> u in [x] + (us + vs)
    ensures forall v :: v in vs ==> v in [x] + (us + vs)
  {
  }

  /** Renaming there and back restores the document exactly. */
  lemma RenamesBack(f: Fields, m: Renaming, n: Renaming)
    requires Valid(f) && Renames(m, Identifiers(f)) && Inverts(n, m)
    ensures RenameDocument(RenameDocument(f, m), n) == f
  {
    hide Renames, Inverts, ValidItems, ValidRelations, ValidRoot, ValidHead, WalksTop, Distinct, RenameDocument,
      ValidIds, ValidRefs, RenameAll;
    var g, ids := RenameDocument(f, m), Identifiers(f);
    var h := RenameDocument(g, n);
    NotRenamed(m, ids);
    HeadNames(f);
    DocumentFields(f, m);
    InverseSparesDocument(m, n, ids);
    DocumentFields(g, n);
    Among(DOCUMENT, Ids(f["packages"].items), FileIds(f));
    RefsWiden(f["packages"].items, Package, FileIds(f), ids);
    RefsWiden(GetList(f, "files").items, File, FileIds(f), ids);
    ItemsBack(f["packages"].items, Package, m, n, ids);
    ItemsBack(GetList(f, "files").items, File, m, n, ids);
    RelationsBack(f["relationships"].items, m, n, ids);
    if "documentDescribes" in f {
      RefsAreList(f["documentDescribes"], ids);
      ListBack(f["documentDescribes"], m, n, ids);
    }
    SameFields(f, g, h);
  }

  lemma InverseSparesDocument(m: Renaming, n: Renaming, ids: seq<string>)
    requires Renames(m, ids) && Inverts(n, m)
    ensures DOCUMENT !in n
  {
  }

  lemma SameFields(f: Fields, g: Fields, h: Fields)
    requires ValidShape(f) && h.Keys == g.Keys == f.Keys
    requires h["packages"] == f["packages"] && h["relationships"] == f["relationships"]
    requires GetList(h, "files") == GetList(f, "files")
    requires "documentDescribes" in f ==> h["documentDescribes"] == f["documentDescribes"]
    requires forall key :: key in f && key !in {"packages", "files", "relationships", "documentDescribes"} ==>
      g[key] == f[key] && h[key] == g[key]
    ensures h == f
  {
    forall key | key in f ensures h[key] == f[key] {
      if key == "files" {
        assert GetList(h, "files") == h["files"];
      }
    }
  }
}
