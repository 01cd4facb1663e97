// Shortening the identifiers of an inventory: the generated mapping, the
// in-place replacement, and why its self-checks never fail.
module SbomPrepare {
  import opened Common
  import opened Text
  import opened SbomDocument
  import opened SbomRenaming
  import opened SbomValidate

  const MAX_PREDICATE_BYTES: nat := 16 * 1024 * 1024

  // ------------------------------------------------------------ the mapping

  function NewId(index: nat): string {
    PREFIX + Decimal(index)
  }

  // `{old: f"SPDXRef-{index}" for index, old in enumerate(identifiers[1:])}`
  function Mapping(ids: seq<string>): Renaming {
    if |ids| <= 1 then map[]
    else Mapping(ids[..|ids| - 1])[ids[|ids| - 1] := NewId(|ids| - 2)]
  }

  lemma NewIdsDiffer(i: nat, j: nat)
    ensures NewId(i) == NewId(j) ==> i == j
  {
    hide Value, Decimal;
    DecimalDenotes(i);
    DecimalDenotes(j);
    assert NewId(i)[|PREFIX|..] == Decimal(i) && NewId(j)[|PREFIX|..] == Decimal(j);
  }

  lemma NewIdIsLegal(i: nat)
    ensures LegalId(NewId(i)) && NewId(i) != DOCUMENT
  {
    hide Value, Decimal;
    DecimalDenotes(i);
    assert NewId(i)[|PREFIX|] == Decimal(i)[0] && DOCUMENT[|PREFIX|] == 'D';
    assert forall k :: |PREFIX| <= k < |NewId(i)| ==> NewId(i)[k] == Decimal(i)[k - |PREFIX|];
  }

  lemma {:induction false} MappingEntries(ids: seq<string>)
    requires ids != [] && Distinct(ids)
    ensures forall s :: s in Mapping(ids) <==> s in ids[1..]
    ensures forall i :: 1 <= i < |ids| ==> ids[i] in Mapping(ids) && Mapping(ids)[ids[i]] == NewId(i - 1)
  {
    hide NewId;
    var n := |ids| - 1;
    if n > 0 {
      var front := ids[..n];
      MappingEntries(front);
      assert ids[1..] == front[1..] + [ids[n]];
      forall i | 1 <= i < |ids| ensures ids[i] in Mapping(ids) && Mapping(ids)[ids[i]] == NewId(i - 1) {
        if i < n {
          assert ids[i] == front[i] && ids[i] != ids[n];
        }
      }
    }
  }

  lemma MappingKeys(ids: seq<string>)
    requires ids != [] && Distinct(ids)
    ensures NamesAll(Mapping(ids), ids[1..])
  {
    hide Mapping, NewId, Distinct;
    MappingEntries(ids);
  }

  lemma EntryOf(s: string, ids: seq<string>) returns (i: nat)
    requires ids != [] && Distinct(ids) && s in Mapping(ids)
    ensures 1 <= i < |ids| && ids[i] == s && Mapping(ids)[s] == NewId(i - 1)
  {
    hide Mapping, NewId, Distinct;
    MappingEntries(ids);
    var k :| 0 <= k < |ids| - 1 && ids[1..][k] == s;
    i := k + 1;
  }

  lemma EntryIsLegal(s: string, ids: seq<string>)
    requires ids != [] && Distinct(ids) && s in Mapping(ids)
    requires forall i :: 0 <= i < |ids| ==> LegalId(ids[i])
    ensures LegalId(s) && LegalId(Mapping(ids)[s]) && Mapping(ids)[s] != DOCUMENT
  {
    hide LegalId, NewId, Mapping, Distinct;
    var i := EntryOf(s, ids);
    NewIdIsLegal(i - 1);
  }

  lemma EntriesDiffer(s: string, t: string, ids: seq<string>)
    requires ids != [] && Distinct(ids) && s in Mapping(ids) && t in Mapping(ids)
    requires Mapping(ids)[s] == Mapping(ids)[t]
    ensures s == t
  {
    hide NewId, Mapping, Distinct;
    var i := EntryOf(s, ids);
    var j := EntryOf(t, ids);
    NewIdsDiffer(i - 1, j - 1);
  }

  lemma FirstIsFree(ids: seq<string>)
    requires ids != [] && Distinct(ids)
    ensures ids[0] !in Mapping(ids)
  {
    hide NewId, Mapping;
    if ids[0] in Mapping(ids) {
      var i := EntryOf(ids[0], ids);
      assert false;
    }
  }

  lemma EntriesAreLegal(ids: seq<string>)
    requires ids != [] && Distinct(ids) && forall i :: 0 <= i < |ids| ==> LegalId(ids[i])
    ensures NamesLegally(Mapping(ids))
  {
    hide LegalId, Mapping, Distinct;
    forall s | s in Mapping(ids)
      ensures LegalId(s) && LegalId(Mapping(ids)[s]) && Mapping(ids)[s] != DOCUMENT
    {
      EntryIsLegal(s, ids);
    }
  }

  lemma EntriesAllDiffer(ids: seq<string>)
    requires ids != [] && Distinct(ids)
    ensures OneToOne(Mapping(ids))
  {
    hide Mapping, Distinct;
    forall s, t | s in Mapping(ids) && t in Mapping(ids) && Mapping(ids)[s] == Mapping(ids)[t] ensures s == t {
      EntriesDiffer(s, t, ids);
    }
  }

  /** The generated mapping gives every element a legal name of its own. */
  lemma MappingRenames(ids: seq<string>)
    requires ids != [] && ids[0] == DOCUMENT && Distinct(ids)
    requires forall i :: 0 <= i < |ids| ==> LegalId(ids[i])
    ensures Renames(Mapping(ids), ids)
  {
    hide LegalId, NewId, Mapping, Distinct, NamesAll, NamesLegally, OneToOne;
    MappingKeys(ids);
    FirstIsFree(ids);
    EntriesAreLegal(ids);
    EntriesAllDiffer(ids);
  }

  lemma IdentifiersAreLegal(f: Fields)
    requires ValidElements(f)
    ensures forall i :: 0 <= i < |Identifiers(f)| ==> LegalId(Identifiers(f)[i])
  {
    assert LegalId(DOCUMENT);
    hide LegalId;
    IdsAreLegal(f["packages"].items);
    IdsAreLegal(GetList(f, "files").items);
  }

  lemma IdsAreLegal(items: seq<Json>)
    requires ValidIds(items)
    ensures forall i :: 0 <= i < |items| ==> LegalId(Ids(items)[i])
  {
    hide LegalId;
    forall i | 0 <= i < |items| ensures LegalId(Ids(items)[i]) {
      assert ValidId(items[i]);
    }
  }

  // `{new: old for old, new in mapping.items()}`
  function Inverse(m: Renaming): (n: Renaming)
    requires OneToOne(m)
    ensures Inverts(n, m)
  {
    map s | s in m :: m[s] := s
  }

  lemma Injective(m: Renaming, ids: seq<string>)
    requires Renames(m, ids)
    ensures OneToOne(m)
  {
  }

  // The mapping of a valid document, ready for both directions.
  lemma MappingFits(f: Fields)
    requires Valid(f)
    ensures Renames(Mapping(Identifiers(f)), Identifiers(f))
  {
    hide ValidHead, ValidItems, ValidRelations, ValidRoot, WalksTop, ValidRefs, Mapping, Renames, ValidElements;
    IdentifiersAreLegal(f);
    MappingRenames(Identifiers(f));
  }

  // --------------------------------------------------------- the adapter

  datatype PrepareError = Invalid | RenamedInvalid | ChangedEvidence | Unencodable | TooLarge

  predicate HasSlots(items: seq<Json>, kind: Kind) {
    forall i :: 0 <= i < |items| ==>
      items[i].Obj? && (RefKey(kind) in items[i].fields ==> items[i].fields[RefKey(kind)].Arr?)
  }

  class Document {
    var fields: Fields

    // `copy.deepcopy`
    constructor (f: Fields)
      ensures fields == f
    {
      fields := f;
    }

    static method ReplaceItems(items: seq<Json>, kind: Kind, m: Renaming) returns (replaced: seq<Json>)
      requires HasSlots(items, kind)
      ensures replaced == RenameItems(items, kind, m)
    {
      replaced := items;
      for i := 0 to |items|
        invariant |replaced| == |items|
        invariant forall k :: 0 <= k < i ==> replaced[k] == RenameItem(items[k], kind, m)
        invariant forall k :: i <= k < |items| ==> replaced[k] == items[k]
      {
        var f := RenameAt(items[i].fields, "SPDXID", m);
        if RefKey(kind) in f {
          var refs := ReplaceRefs(f[RefKey(kind)].items, m);
          f := f[RefKey(kind) := Arr(refs)];
        }
        replaced := replaced[i := Obj(f)];
      }
    }

    static method ReplaceRefs(refs: seq<Json>, m: Renaming) returns (replaced: seq<Json>)
      ensures replaced == RenameAll(refs, m)
    {
      replaced := refs;
      for i := 0 to |refs|
        invariant |replaced| == |refs|
        invariant forall k :: 0 <= k < i ==> replaced[k] == Rename(refs[k], m)
        invariant forall k :: i <= k < |refs| ==> replaced[k] == refs[k]
      {
        replaced := replaced[i := Rename(replaced[i], m)];
      }
    }

    static method ReplaceRelations(relations: seq<Json>, m: Renaming) returns (replaced: seq<Json>)
      requires forall i :: 0 <= i < |relations| ==> relations[i].Obj?
      ensures replaced == RenameRelations(relations, m)
    {
      replaced := relations;
      for i := 0 to |relations|
        invariant |replaced| == |relations|
        invariant forall k :: 0 <= k < i ==> replaced[k] == RenameRelation(relations[k], m)
        invariant forall k :: i <= k < |relations| ==> replaced[k] == relations[k]
      {
        var f := RenameAt(relations[i].fields, "spdxElementId", m);
        f := RenameAt(f, "relatedSpdxElement", m);
        replaced := replaced[i := Obj(f)];
      }
    }

    /** Overwrites every identifier slot of the document, collection by collection. */
    method ReplaceIds(m: Renaming)
      requires Valid(fields)
      modifies this
      ensures fields == RenameDocument(old(fields), m)
    {
      hide RenameItems, RenameRelations, RenameAll, Valid;
      SlotsAreThere(fields);
      fields := RenameAt(fields, "SPDXID", m);
      var packages := ReplaceItems(fields["packages"].items, Package, m);
      fields := fields["packages" := Arr(packages)];
      if "files" in fields {
        var files := ReplaceItems(fields["files"].items, File, m);
        fields := fields["files" := Arr(files)];
      }
      var relations := ReplaceRelations(fields["relationships"].items, m);
      fields := fields["relationships" := Arr(relations)];
      if "documentDescribes" in fields {
        var described := ReplaceRefs(fields["documentDescribes"].items, m);
        fields := fields["documentDescribes" := Arr(described)];
      }
    }
  }

  lemma ItemsHaveSlots(items: seq<Json>, kind: Kind, fileIds: seq<string>)
    requires ValidItems(items, kind, fileIds)
    ensures HasSlots(items, kind)
  {
    hide ValidNames, ValidChecksums, Walks;
    forall i | 0 <= i < |items|
      ensures items[i].Obj? && (RefKey(kind) in items[i].fields ==> items[i].fields[RefKey(kind)].Arr?)
    {
      assert ValidItem(items[i], kind, fileIds);
    }
  }

  lemma SlotsAreThere(f: Fields)
    requires Valid(f)
    ensures "SPDXID" in f
    ensures "packages" in f && f["packages"].Arr? && HasSlots(f["packages"].items, Package)
    ensures "files" in f ==> f["files"].Arr? && HasSlots(f["files"].items, File)
    ensures "relationships" in f && Objects(f["relationships"])
    ensures "documentDescribes" in f ==> f["documentDescribes"].Arr?
  {
    hide ValidItems, ValidRelations, ValidRoot, WalksTop, Distinct, ValidInfo, ValidIds;
    ItemsHaveSlots(f["packages"].items, Package, FileIds(f));
    ItemsHaveSlots(GetList(f, "files").items, File, FileIds(f));
  }

  function NameMap(f: Fields): Renaming
    requires Valid(f)
  {
    Mapping(Identifiers(f))
  }

  function Prepared(f: Fields): Fields
    requires Valid(f)
  {
    RenameDocument(f, NameMap(f))
  }

  /** Preparing a valid document gives a valid one, and the inverse names give it back. */
  lemma PreparedIsSound(f: Fields)
    requires Valid(f)
    ensures Valid(Prepared(f))
    ensures OneToOne(NameMap(f))
    ensures RenameDocument(Prepared(f), Inverse(NameMap(f))) == f
  {
    hide Renames, Inverts, RenameDocument, Mapping, Valid, Identifiers;
    MappingFits(f);
    StaysValid(f, NameMap(f));
    Injective(NameMap(f), Identifiers(f));
    RenamesBack(f, NameMap(f), Inverse(NameMap(f)));
  }

  /** `prepare`: the renamed document or the first reason against it. Neither
      self-check ever fails, so only an inventory that is invalid, cannot be encoded
      or is oversized is refused. `encoded` is the length of a document's text, or
      None where the encoder refuses it. */
  method Prepare(f: Fields, encoded: Fields -> Option<nat>) returns (result: Result<Fields, PrepareError>)
    ensures result ==
      if !Valid(f) then Err(Invalid)
      else if encoded(Prepared(f)).None? then Err(Unencodable)
      else if encoded(Prepared(f)).value > MAX_PREDICATE_BYTES then Err(TooLarge)
      else Ok(Prepared(f))
  {
    hide RenameDocument, Mapping, Valid, Inverse;
    var identifiers := Validate(Obj(f));
    if identifiers.None? {
      return Err(Invalid);
    }
    PreparedIsSound(f);
    var mapping := Mapping(identifiers.value);
    var renamed := new Document(f);
    renamed.ReplaceIds(mapping);
    var again := Validate(Obj(renamed.fields));
    if again.None? {
      return Err(RenamedInvalid);
    }
    var restored := new Document(renamed.fields);
    restored.ReplaceIds(Inverse(mapping));
    if restored.fields != f {
      return Err(ChangedEvidence);
    }
    var length := encoded(renamed.fields);
    if length.None? {
      return Err(Unencodable);
    }
    if length.value > MAX_PREDICATE_BYTES {
      return Err(TooLarge);
    }
    return Ok(renamed.fields);
  }

  // -------------------------------------------------- what preparing means

  /** The prepared document is valid and its elements are numbered in order. */
  lemma PreparedIsNumbered(f: Fields)
    requires Valid(f)
    ensures Valid(Prepared(f)) && |Identifiers(Prepared(f))| == |Identifiers(f)|
    ensures forall i :: 1 <= i < |Identifiers(f)| ==> Identifiers(Prepared(f))[i] == NewId(i - 1)
  {
    hide Valid, Renames, RenameDocument, Mapping, NewId, Distinct, Identifiers;
    var ids := Identifiers(f);
    MappingFits(f);
    StaysValid(f, Mapping(ids));
    IdentifiersDiffer(f);
    MappingEntries(ids);
  }

  lemma IdentifiersDiffer(f: Fields)
    requires Valid(f)
    ensures Distinct(Identifiers(f))
  {
  }

  /** A prepared form, with the old names in order, belongs to one document only. */
  lemma PreparedDetermines(f: Fields, g: Fields)
    requires Valid(f) && Valid(g) && Identifiers(f) == Identifiers(g)
    requires Prepared(f) == Prepared(g)
    ensures f == g
  {
    hide Valid, RenameDocument, Mapping, Identifiers;
    PreparedIsSound(f);
    PreparedIsSound(g);
  }

  // ------------------------------------------------------------ idempotence

  ghost predicate Fixes(m: Renaming) {
    forall s :: s in m ==> m[s] == s
  }

  lemma FixedList(items: seq<Json>, m: Renaming)
    requires Fixes(m)
    ensures RenameAll(items, m) == items
  {
  }

  lemma FixedField(f: Fields, key: string, m: Renaming)
    requires Fixes(m)
    ensures RenameAt(f, key, m) == f
    ensures RenameList(f, key, m) == f
  {
    if key in f {
      assert f[key := f[key]] == f;
      if f[key].Arr? {
        FixedList(f[key].items, m);
      }
    }
  }

  lemma FixedItems(items: seq<Json>, kind: Kind, m: Renaming)
    requires Fixes(m)
    ensures RenameItems(items, kind, m) == items
  {
    hide RenameAt, RenameList, Fixes;
    forall i | 0 <= i < |items| ensures RenameItem(items[i], kind, m) == items[i] {
      if items[i].Obj? {
        FixedField(items[i].fields, "SPDXID", m);
        FixedField(items[i].fields, RefKey(kind), m);
      }
    }
  }

  lemma FixedRelations(relations: seq<Json>, m: Renaming)
    requires Fixes(m)
    ensures RenameRelations(relations, m) == relations
  {
    hide RenameAt, Fixes;
    forall i | 0 <= i < |relations| ensures RenameRelation(relations[i], m) == relations[i] {
      if relations[i].Obj? {
        FixedField(relations[i].fields, "spdxElementId", m);
        FixedField(relations[i].fields, "relatedSpdxElement", m);
      }
    }
  }

  lemma FixedCollection(f: Fields, key: string, rename: seq<Json> -> seq<Json>)
    requires key in f && f[key].Arr? ==> rename(f[key].items) == f[key].items
    ensures RenameCollection(f, key, rename) == f
  {
    if key in f {
      assert f[key := f[key]] == f;
    }
  }

  lemma FixedDocument(f: Fields, m: Renaming)
    requires Fixes(m)
    ensures RenameDocument(f, m) == f
  {
    hide RenameAt, RenameList, RenameCollection, RenameItems, RenameRelations, Fixes;
    FixedField(f, "SPDXID", m);
    if "packages" in f && f["packages"].Arr? {
      FixedItems(f["packages"].items, Package, m);
    }
    FixedCollection(f, "packages", items => RenameItems(items, Package, m));
    if "files" in f && f["files"].Arr? {
      FixedItems(f["files"].items, File, m);
    }
    FixedCollection(f, "files", items => RenameItems(items, File, m));
    if "relationships" in f && f["relationships"].Arr? {
      FixedRelations(f["relationships"].items, m);
    }
    FixedCollection(f, "relationships", items => RenameRelations(items, m));
    FixedField(f, "documentDescribes", m);
  }

  /** Preparing a prepared document changes nothing. */
  lemma PreparingIsIdempotent(f: Fields)
    requires Valid(f)
    ensures Valid(Prepared(f)) && Prepared(Prepared(f)) == Prepared(f)
  {
    hide Valid, RenameDocument, Mapping, NewId, Distinct, Identifiers;
    PreparedIsNumbered(f);
    var g := Prepared(f);
    var ids := Identifiers(g);
    IdentifiersDiffer(g);
    MappingEntries(ids);
    forall s | s in Mapping(ids) ensures Mapping(ids)[s] == s {
      var i := EntryOf(s, ids);
    }
    FixedDocument(g, Mapping(ids));
  }
}
