// A smallest inventory that the validator accepts: the theorems about valid
// documents are about something.
module SbomExample {
  import opened Common
  import opened SbomDocument
  import opened SbomRenaming

  function SmallItem(id: string, name: string): Fields {
    map["SPDXID" := Str(id), "name" := Str(name), "downloadLocation" := Str("NONE")]
  }

  function SmallImage(digest: string): Json {
    var sum := Obj(map["algorithm" := Str("SHA256"), "checksumValue" := Str(digest)]);
    Obj(SmallItem("SPDXRef-image", "image")["primaryPackagePurpose" := Str("CONTAINER")]["checksums" := Arr([sum])])
  }

  function SmallRelation(): Json {
    Obj(map["spdxElementId" := Str(DOCUMENT), "relatedSpdxElement" := Str("SPDXRef-image"),
            "relationshipType" := Str("DESCRIBES")])
  }

  function SmallInfo(): Json {
    Obj(map["created" := Str("now"), "creators" := Arr([Str("Tool: syft")])])
  }

  /** One image and one package, described by one relationship. */
  function SmallInventory(digest: string): Fields {
    map["spdxVersion" := Str("SPDX-2.3"), "dataLicense" := Str("CC0-1.0"), "SPDXID" := Str(DOCUMENT),
        "name" := Str("n"), "documentNamespace" := Str("ns"),
        "creationInfo" := SmallInfo(),
        "packages" := Arr([SmallImage(digest), Obj(SmallItem("SPDXRef-p", "p"))]),
        "relationships" := Arr([SmallRelation()])]
  }

  lemma SmallHead(digest: string)
    ensures ValidHead(SmallInventory(digest))
  {
    hide SmallImage, SmallItem, SmallRelation;
  }

  lemma SmallIdsAreLegal(digest: string)
    ensures ValidId(SmallImage(digest)) && Id(SmallImage(digest)) == "SPDXRef-image"
    ensures ValidId(Obj(SmallItem("SPDXRef-p", "p"))) && Id(Obj(SmallItem("SPDXRef-p", "p"))) == "SPDXRef-p"
  {
  }

  lemma SmallIds(digest: string)
    ensures ValidElements(SmallInventory(digest))
    ensures Identifiers(SmallInventory(digest)) == [DOCUMENT, "SPDXRef-image", "SPDXRef-p"]
    ensures FileIds(SmallInventory(digest)) == []
  {
    hide SmallItem, ValidId, SmallInfo;
    SmallIdsAreLegal(digest);
  }

  lemma SmallItemsAreValid(digest: string)
    requires digest != ""
    ensures ValidItems(SmallInventory(digest)["packages"].items, Package, [])
  {
    SmallImageIsValid(digest);
    SmallPackageIsValid();
  }

  lemma SmallPackageIsValid()
    ensures ValidItem(Obj(SmallItem("SPDXRef-p", "p")), Package, [])
  {
  }

  lemma SmallImageIsValid(digest: string)
    requires digest != ""
    ensures ValidItem(SmallImage(digest), Package, [])
  {
    hide ValidChecksums, Walks;
    SmallSumsAreValid(digest);
    SmallImageWalks(digest);
  }

  lemma SmallSumsAreValid(digest: string)
    requires digest != ""
    ensures ValidChecksums(SmallImage(digest).fields)
  {
  }

  lemma SmallImageWalks(digest: string)
    ensures Walks(SmallImage(digest).fields, {"SPDXID", "hasFiles"})
  {
    var sum := Obj(map["algorithm" := Str("SHA256"), "checksumValue" := Str(digest)]);
    assert NoReferences(sum);
    assert NoReferences(Arr([sum]));
  }

  lemma SmallRelationIsValid(digest: string)
    ensures ValidRelation(SmallRelation(), [DOCUMENT, "SPDXRef-image", "SPDXRef-p"])
  {
  }

  lemma SmallRoots(digest: string)
    ensures Roots(SmallInventory(digest)["packages"].items) == [SmallImage(digest)]
  {
    var image, package := SmallImage(digest), Obj(SmallItem("SPDXRef-p", "p"));
    assert !IsRoot(package) && IsRoot(image);
    assert [image, package][1..] == [package] && [package][1..] == [];
    assert Roots([package]) == [];
  }

  lemma SmallDigest(digest: string)
    requires digest != "" && LegalDigest(digest)
    ensures ValidDigest(SmallImage(digest))
  {
    hide LegalDigest;
    SmallSumsAreValid(digest);
    var sums := GetList(SmallImage(digest).fields, "checksums").items;
    assert sums[1..] == [];
    assert Sha256(sums) == [Str(digest)];
  }

  lemma SmallDescribed()
    ensures Described([SmallRelation()]) == [Str("SPDXRef-image")]
  {
    assert [SmallRelation()][1..] == [];
  }

  lemma SmallRoot(digest: string)
    requires digest != "" && LegalDigest(digest)
    ensures var f := SmallInventory(digest); ValidRoot(f, f["packages"].items, f["relationships"].items)
  {
    hide LegalDigest, Roots, Described, ValidDigest, SmallRelation;
    SmallParts(digest);
    SmallRoots(digest);
    SmallDigest(digest);
    SmallDescribed();
  }

  /** There are valid documents: the smallest inventory is one, for every legal
      digest and for no other. */
  lemma SmallInventoryIsValidIff(digest: string)
    ensures Valid(SmallInventory(digest)) <==> LegalDigest(digest)
  {
    hide Valid;
    if LegalDigest(digest) {
      SmallInventoryIsValid(digest);
    }
    if Valid(SmallInventory(digest)) {
      SmallDigestIsLegal(digest);
    }
  }

  lemma SmallDigestIsLegal(digest: string)
    requires Valid(SmallInventory(digest))
    ensures LegalDigest(digest)
  {
    hide ValidHead, ValidElements, ValidItems, ValidRelations, WalksTop, Distinct, LegalDigest, Roots, Described;
    SmallRoots(digest);
    var sums := GetList(SmallImage(digest).fields, "checksums").items;
    assert sums[1..] == [];
    assert Sha256(sums) == [Str(digest)];
  }

  lemma SmallInventoryIsValid(digest: string)
    requires LegalDigest(digest)
    ensures Valid(SmallInventory(digest))
  {
    hide ValidHead, ValidElements, ValidItems, ValidRelation, ValidRoot, WalksTop, Distinct, Identifiers, FileIds,
      LegalDigest, SmallInventory, SmallRelation;
    DigestIsNotEmpty(digest);
    SmallParts(digest);
    NoItems();
    SmallHead(digest);
    SmallIds(digest);
    SmallItemsAreValid(digest);
    SmallRelationIsValid(digest);
    SmallRoot(digest);
    SmallWalk(digest);
  }

  lemma NoItems()
    ensures ValidItems([], File, [])
  {
  }

  lemma DigestIsNotEmpty(digest: string)
    requires LegalDigest(digest)
    ensures digest != ""
  {
  }

  lemma SmallWalk(digest: string)
    ensures WalksTop(SmallInventory(digest))
  {
    hide SmallImage, SmallItem, SmallRelation, SmallInfo, NoReferences;
    SmallInfoWalks();
    StringHasNoReferences("SPDX-2.3");
    StringHasNoReferences("CC0-1.0");
    StringHasNoReferences(DOCUMENT);
    StringHasNoReferences("n");
    StringHasNoReferences("ns");
  }

  lemma SmallInfoWalks()
    ensures NoReferences(SmallInfo())
  {
    assert NoReferences(Arr([Str("Tool: syft")]));
  }

  lemma SmallParts(digest: string)
    ensures var f := SmallInventory(digest);
      && "documentDescribes" !in f && GetList(f, "files").items == []
      && f["relationships"].items == [SmallRelation()]
    ensures Distinct([DOCUMENT, "SPDXRef-image", "SPDXRef-p"])
  {
    hide SmallImage, SmallItem, SmallRelation, SmallInfo;
  }
}
