# FAIR Data Point: metadata-schema versioning and ontology-backed search, in Dafny

This project models two parts of the FAIR Data Point server.

**Search.**
- The `OntologySearcher` turns free text into keywords. It lower-cases the text, splits it on spaces, strips every character that is not a letter or digit, and drops stopwords and words of three characters or fewer.
- At start-up it indexes an ontology. Every pair of keywords that occur together in one class's labels becomes a word association. Every keyword gets a corpus-wide count.
- `getExtendedKeywords` widens a query with the associations stored for its keywords.
- The `SearchService` scores each retrieved document by term frequency times inverse document frequency. It ranks the documents by score and groups the ranking by URI.

**Metadata schemas.**
- A `SemanticVersion` is parsed from and printed as `major.minor.patch`. Versions are ordered by `compareTo`.
- A `MetadataSchema` record is either a draft (no version) or a published version of a schema `uuid`.
- The `MetadataSchemaValidator` checks a schema's URL prefix, version, parents and children.
- The `MetadataSchemaMapper` converts between records and their DTOs.
- The `MetadataSchemaService` keeps the repository of records. It lists bundles, finds the most recent version, and creates, updates, publishes and deletes drafts.

**How the Java is modelled.**
- Pure code becomes functions over datatypes:
  - Java's `String.split` and `Integer.parseInt` (modules `JavaStrings` and `Decimal`);
  - version parsing and printing (`SemanticVersions`);
  - the mapper, the validator, and the queries of the schema service.
- Loops become methods, proved against those functions:
  - the keyword loop;
  - the word-count and association loops of the indexer;
  - the scoring loop of the search;
  - the insertion sort of the search results (over an `array`).
- The two stateful services become classes:
  - `OntologySearcher` holds the association and word-count repositories as sequence fields;
  - `MetadataSchemaService` holds the record table and the next id to assign.

  Their methods state the whole new state. Lemmas prove that each change keeps the table valid: ids unique, and at most one draft per uuid.
- Java failures become `Result`/`Option` values: a `NumberFormatException`, the `NullPointerException` from comparing a draft's null version, and a missing referenced schema.

Where the repository's documentation and its code disagree, the model follows the code:
- `new SemanticVersion("1.2.3.x")` is an error, because every part of the split goes through `parseInt`. Only integer extra parts are ignored.
- `updateDraft` takes the most recent version of the uuid *including the draft itself* as the previous version. `MetadataSchemaService.UpdateDraft` does the same; `UpdateDraftCorrected` applies the rule the code evidently intends. See Findings.
- The mapper builds the bundle version view with six fields. That view's class declares five; the model has six, with `urlPrefix`.

## Model

| member | source | states |
|---|---|---|
| Decimal.IntToStringCanonical | src/main/java/nl/dtls/fairdatapoint/entity/schema/SemanticVersion.java:48 | `%d` prints a canonical integer: an optional minus only for negative values, then digits without a leading zero |
| Decimal.ParseInt | src/main/java/nl/dtls/fairdatapoint/entity/schema/SemanticVersion.java:52 | Integer.parseInt: succeeds iff the text is an optional sign then at least one decimal digit with a value within 32 bits (leading zeros, a plus sign and "-0" accepted), and then gives that value; anything else is a NumberFormatException (None) |
| Decimal.ParseIntLenient | src/main/java/nl/dtls/fairdatapoint/entity/schema/SemanticVersion.java:52 | parseInt accepts "+5", "007" and "-0" (as 5, 7 and 0) and rejects "", "-" and "1a" |
| Decimal.ParseIntToString | src/main/java/nl/dtls/fairdatapoint/entity/schema/SemanticVersion.java:47-56 | parseInt reads back every 32-bit int that `%d` prints, negative ones included |
| Decimal.CanonicalIntRoundTrip | src/main/java/nl/dtls/fairdatapoint/entity/schema/SemanticVersion.java:47-56 | a canonical decimal (optional minus, no leading zero, no `-0`, within 32 bits) parses to the int that prints back as the same text |
| JavaStrings.SplitAll | src/main/java/nl/dtls/fairdatapoint/entity/schema/SemanticVersion.java:52 | the pieces between separators: at least one, none containing the separator, every character taken from the input |
| JavaStrings.Split | src/main/java/nl/dtls/fairdatapoint/entity/schema/SemanticVersion.java:52 | String.split on one character: [s] when the separator does not occur; otherwise the pieces of SplitAll with the trailing empty ones dropped (a prefix of them, not ending in an empty piece, only empty pieces removed) |
| JavaStrings.JoinSplitAll | src/main/java/nl/dtls/fairdatapoint/entity/schema/SemanticVersion.java:52 | joining the pieces with the separator gives back the input |
| JavaStrings.SplitAllJoin | src/main/java/nl/dtls/fairdatapoint/entity/schema/SemanticVersion.java:52 | splitting pieces joined by a separator they do not contain gives back the pieces |
| SemanticVersions.ToString | src/main/java/nl/dtls/fairdatapoint/entity/schema/SemanticVersion.java:47-49 | toString is the three components in decimal joined by '.': splitting it on '.' gives exactly the three decimal texts |
| SemanticVersions.Parse | src/main/java/nl/dtls/fairdatapoint/entity/schema/SemanticVersion.java:51-56 | succeeds iff the split has at least three parts and every part is an int; then major, minor and patch are the first three parts' values |
| SemanticVersions.ParseThree | src/main/java/nl/dtls/fairdatapoint/entity/schema/SemanticVersion.java:51-56 | any three dot-free parts that parseInt accepts, the last non-empty, make the version of their three values, whatever their spelling ("1.02.3", "+1.0.0") |
| SemanticVersions.ParseToString | src/main/java/nl/dtls/fairdatapoint/entity/schema/SemanticVersion.java:47-56 | parsing toString(v) gives v back, for every version including negative components |
| SemanticVersions.ToStringCanonical | src/main/java/nl/dtls/fairdatapoint/entity/schema/SemanticVersion.java:47-49 | toString always produces a canonical string |
| SemanticVersions.CanonicalToStringParse | src/main/java/nl/dtls/fairdatapoint/entity/schema/SemanticVersion.java:47-56 | a canonical string parses, and printing the result gives the string back |
| SemanticVersions.ToStringParse | src/main/java/nl/dtls/fairdatapoint/entity/schema/SemanticVersion.java:47-56 | toString(parse(s)) == s holds exactly for the canonical strings (both directions) |
| SemanticVersions.CompareTo | src/main/java/nl/dtls/fairdatapoint/entity/schema/SemanticVersion.java:58-64 | compareTo is -1, 0 or 1; 0 iff the versions are equal (as the generated equals says); negative iff (major, minor, patch) is lexicographically smaller |
| SemanticVersions.CompareToTotalOrder | src/main/java/nl/dtls/fairdatapoint/entity/schema/SemanticVersion.java:58-64 | compareTo is reflexive, antisymmetric in sign, transitive (strict and non-strict) and total |
| MetadataSchemas.WithDefaults | src/main/java/nl/dtls/fairdatapoint/entity/schema/MetadataSchema.java:57-80 | a schema with the field defaults has no previous version and empty parents, children and links; isDraft iff no version, isRoot iff empty prefix, isCatalog iff named "catalog" |
| MetadataSchemaValidator.FindByUrlPrefix | src/main/java/nl/dtls/fairdatapoint/service/schema/MetadataSchemaValidator.java:53 | findByUrlPrefix: exactly the stored schemas with that prefix |
| MetadataSchemaValidator.FirstConflict | src/main/java/nl/dtls/fairdatapoint/service/schema/MetadataSchemaValidator.java:54-58 | no error iff every candidate has the schema's uuid; otherwise the error names a candidate with another uuid |
| MetadataSchemaValidator.ValidateUrlPrefix | src/main/java/nl/dtls/fairdatapoint/service/schema/MetadataSchemaValidator.java:52-59 | fails iff a stored schema with the same prefix has a different uuid, and the error names that schema |
| MetadataSchemaValidator.ValidateVersion | src/main/java/nl/dtls/fairdatapoint/service/schema/MetadataSchemaValidator.java:61-71 | passes without a previous version; a draft previous version always fails; otherwise fails iff the schema is published and not isSuccessor of the previous version |
| MetadataSchemaValidator.FirstConcrete | src/main/java/nl/dtls/fairdatapoint/service/schema/MetadataSchemaValidator.java:76-80 | no error iff every parent is abstract |
| MetadataSchemaValidator.ValidateExtends | src/main/java/nl/dtls/fairdatapoint/service/schema/MetadataSchemaValidator.java:73-82 | fails iff the schema is abstract and some parent is not; a non-abstract schema never fails |
| MetadataSchemaValidator.FirstAbstractChild | src/main/java/nl/dtls/fairdatapoint/service/schema/MetadataSchemaValidator.java:86-90 | no error iff no child schema is abstract |
| MetadataSchemaValidator.ValidateChildren | src/main/java/nl/dtls/fairdatapoint/service/schema/MetadataSchemaValidator.java:84-91 | fails iff some child's schema is abstract |
| MetadataSchemaValidator.Validate | src/main/java/nl/dtls/fairdatapoint/service/schema/MetadataSchemaValidator.java:42-50 | passes iff all four checks pass; the first failing check in the order prefix, version, extends, children is the error reported |
| MetadataSchemaMapper.ToCoordsDTOs | src/main/java/nl/dtls/fairdatapoint/service/schema/MetadataSchemaMapper.java:50 | one coordinate per schema, same length and order |
| MetadataSchemaMapper.ToChildCoordsDTOs | src/main/java/nl/dtls/fairdatapoint/service/schema/MetadataSchemaMapper.java:51 | one coordinate per child, naming the child's schema, same length and order |
| MetadataSchemaMapper.ToChildMetadataDTOs | src/main/java/nl/dtls/fairdatapoint/service/schema/MetadataSchemaMapper.java:85 | one metadata DTO per entry, same length and order |
| MetadataSchemaMapper.FromChildMetadataDTOs | src/main/java/nl/dtls/fairdatapoint/service/schema/MetadataSchemaMapper.java:164 | one metadata entry per DTO, same length and order |
| MetadataSchemaMapper.ToChildDTO | src/main/java/nl/dtls/fairdatapoint/service/schema/MetadataSchemaMapper.java:78-87 | the view names the child schema by its uuid and version string, and fromChildDTO with that schema rebuilds the child exactly |
| MetadataSchemaMapper.ToChildDTOs | src/main/java/nl/dtls/fairdatapoint/service/schema/MetadataSchemaMapper.java:66 | one child DTO per child, same length and order |
| MetadataSchemaMapper.ToLinkDTO | src/main/java/nl/dtls/fairdatapoint/service/schema/MetadataSchemaMapper.java:71-76 | fromLinkDTO gives the link back from its view |
| MetadataSchemaMapper.ToLinkDTOs | src/main/java/nl/dtls/fairdatapoint/service/schema/MetadataSchemaMapper.java:67 | one link DTO per link, same length and order |
| MetadataSchemaMapper.FromLinkDTOs | src/main/java/nl/dtls/fairdatapoint/service/schema/MetadataSchemaMapper.java:123 | one link per DTO, same length and order |
| MetadataSchemaMapper.LinkRoundTrip | src/main/java/nl/dtls/fairdatapoint/service/schema/MetadataSchemaMapper.java:143-148 | fromLinkDTO and toLinkDTO are inverse to each other, both ways |
| MetadataSchemaMapper.FromChildDTO | src/main/java/nl/dtls/fairdatapoint/service/schema/MetadataSchemaMapper.java:158-166 | the child points at the given schema and carries the DTO's relation, title, tags and metadata |
| MetadataSchemaMapper.ChildRoundTrip | src/main/java/nl/dtls/fairdatapoint/service/schema/MetadataSchemaMapper.java:158-166 | the child DTO of a child made from a DTO (pointing at the schema the DTO names) is that DTO |
| MetadataSchemaMapper.ToVersionDTO | src/main/java/nl/dtls/fairdatapoint/service/schema/MetadataSchemaMapper.java:44-53 | the version view carries version string, name, abstract flag, prefix, and the coordinates of the parents and child schemas in order |
| MetadataSchemaMapper.ToVersionDTOs | src/main/java/nl/dtls/fairdatapoint/service/schema/MetadataSchemaMapper.java:40 | one version view per schema, same length and order |
| MetadataSchemaMapper.AnyDraft | src/main/java/nl/dtls/fairdatapoint/service/schema/MetadataSchemaMapper.java:39 | true iff some schema of the list is a draft |
| MetadataSchemaMapper.ToBundleDTO | src/main/java/nl/dtls/fairdatapoint/service/schema/MetadataSchemaMapper.java:35-42 | needs a non-empty list; uuid and name from its first element; hasDraft iff some schema is a draft; versions in the same length and order |
| MetadataSchemaMapper.ToDetailDTO | src/main/java/nl/dtls/fairdatapoint/service/schema/MetadataSchemaMapper.java:55-69 | draft == isDraft; the scalar fields copied; parents, children and links keep their length and order |
| MetadataSchemaMapper.ToDraftDetailDTO | src/main/java/nl/dtls/fairdatapoint/service/schema/MetadataSchemaMapper.java:103-108 | the detail view with draft set to true and version to null, nothing else changed |
| MetadataSchemaMapper.FromChangeDTO | src/main/java/nl/dtls/fairdatapoint/service/schema/MetadataSchemaMapper.java:110-125 | a new draft: no version, version string, previous version or id; content from the DTO, the given parents and children |
| MetadataSchemaMapper.FromChangeDTOForDraft | src/main/java/nl/dtls/fairdatapoint/service/schema/MetadataSchemaMapper.java:127-141 | the draft keeps its id and uuid, stays a draft, takes the DTO's content and the given previous version |
| MetadataSchemaMapper.FromPublishDTO | src/main/java/nl/dtls/fairdatapoint/service/schema/MetadataSchemaMapper.java:150-156 | fails iff the version string does not parse; otherwise the draft with the parsed version, the given version string and description, all other fields unchanged |
| MetadataSchemaMapper.PublishedVersionString | src/main/java/nl/dtls/fairdatapoint/service/schema/MetadataSchemaMapper.java:150-156 | publishing with a canonical version string yields a non-draft whose version string prints its version |
| MetadataSchemaMapper.ToDraft | src/main/java/nl/dtls/fairdatapoint/service/schema/MetadataSchemaMapper.java:168-183 | a new draft with no previous version or id whose content fields are the previous version's |
| MetadataSchemaMapper.DraftViewIsViewOfDraft | src/main/java/nl/dtls/fairdatapoint/service/schema/MetadataSchemaMapper.java:103-108 | the draft view of a schema is the detail view of the draft made from it |
| SchemaService.FindByUuid | src/main/java/nl/dtls/fairdatapoint/service/schema/MetadataSchemaService.java:62 | findByUuid: exactly the stored records of the uuid, a subsequence of the store (in store order) |
| SchemaService.FirstMatch | src/main/java/nl/dtls/fairdatapoint/service/schema/MetadataSchemaService.java:71 | the first position holding the uuid with that version string, None iff there is none |
| SchemaService.FindByUuidAndVersion | src/main/java/nl/dtls/fairdatapoint/service/schema/MetadataSchemaService.java:71 | findByUuidAndVersion: None iff no stored record has that uuid and version string; otherwise such a record (version None finds the draft) |
| SchemaService.IndexOfId | src/main/java/nl/dtls/fairdatapoint/service/schema/MetadataSchemaService.java:93 | the position of the record with the id, None iff no record has it |
| SchemaService.IndexOfStoredId | src/main/java/nl/dtls/fairdatapoint/service/schema/MetadataSchemaService.java:105 | on a valid table the id of the record at position i is found at i |
| SchemaService.SaveInto | src/main/java/nl/dtls/fairdatapoint/service/schema/MetadataSchemaService.java:93 | save: a record whose id is stored replaces that record, nothing else changes; any other record is appended under the next id |
| SchemaService.RemoveById | src/main/java/nl/dtls/fairdatapoint/service/schema/MetadataSchemaService.java:141 | delete: exactly the records with another id, in their order |
| SchemaService.SortedByPairwise | src/main/java/nl/dtls/fairdatapoint/service/schema/MetadataSchemaService.java:57 | in a list sorted by a key every element's key is at least every later element's |
| SchemaService.InsertBy | src/main/java/nl/dtls/fairdatapoint/service/schema/MetadataSchemaService.java:57 | inserting into a sorted list gives a sorted permutation with one more element |
| SchemaService.SortBy | src/main/java/nl/dtls/fairdatapoint/service/schema/MetadataSchemaService.java:57 | the sort returns a permutation of its input, sorted by descending key |
| SchemaService.SortDescending | src/main/java/nl/dtls/fairdatapoint/service/schema/MetadataSchemaService.java:57 | sorted(SEMVER_COMPARATOR.reversed()): a permutation, sorted by descending version; only asked of lists without a draft or of at most one record |
| SchemaService.SortDescendingOrdered | src/main/java/nl/dtls/fairdatapoint/service/schema/MetadataSchemaService.java:57 | the sorted records are a permutation of the input, each comparable with and at least as recent as every later one |
| SchemaService.MaxIndexBy | src/main/java/nl/dtls/fairdatapoint/service/schema/MetadataSchemaService.java:80 | Stream.max: a position whose key is at least every key, with every earlier key strictly smaller (the first maximum) |
| SchemaService.MaxVersionIndex | src/main/java/nl/dtls/fairdatapoint/service/schema/MetadataSchemaService.java:79-81 | max(SEMVER_COMPARATOR): the first most recent record, comparable with every other |
| SchemaService.Uuids | src/main/java/nl/dtls/fairdatapoint/service/schema/MetadataSchemaService.java:55 | the uuid of every stored record, in store order |
| SchemaService.SortedGroupHead | src/main/java/nl/dtls/fairdatapoint/service/schema/MetadataSchemaService.java:55-57 | a stored uuid's group is non-empty and, sorted, starts with a record of that uuid |
| SchemaService.GroupsOf | src/main/java/nl/dtls/fairdatapoint/service/schema/MetadataSchemaService.java:55 | groupingBy(uuid): the records of each uuid, one group per uuid of the list |
| SchemaService.SortEachBy | src/main/java/nl/dtls/fairdatapoint/service/schema/MetadataSchemaService.java:57 | each group sorted |
| SchemaService.ToBundleDTOs | src/main/java/nl/dtls/fairdatapoint/service/schema/MetadataSchemaService.java:56-58 | one bundle per non-empty group, carrying the group's uuid |
| SchemaService.GroupHeads | src/main/java/nl/dtls/fairdatapoint/service/schema/MetadataSchemaService.java:55-57 | every sorted group of a stored uuid is non-empty and starts with a record of that uuid |
| SchemaService.BundleUuids | src/main/java/nl/dtls/fairdatapoint/service/schema/MetadataSchemaService.java:55-58 | bundles made from the distinct stored uuids carry every stored uuid exactly once |
| SchemaService.BundleContents | src/main/java/nl/dtls/fairdatapoint/service/schema/MetadataSchemaService.java:56-58 | each bundle is its uuid's records sorted by descending version |
| SchemaService.GetAllBundles | src/main/java/nl/dtls/fairdatapoint/service/schema/MetadataSchemaService.java:53-59 | fails (comparator on a draft) iff some uuid with two or more records has a draft; otherwise exactly one bundle per stored uuid, each its records sorted by descending version |
| SchemaService.GetBundle | src/main/java/nl/dtls/fairdatapoint/service/schema/MetadataSchemaService.java:61-68 | empty iff no record of the uuid is stored; otherwise the bundle of that uuid, hasDraft iff one of its records is a draft, one version view per record in store order |
| SchemaService.MostRecentVersion | src/main/java/nl/dtls/fairdatapoint/service/schema/MetadataSchemaService.java:79-81 | getMostRecentVersion: fails iff the uuid has two or more records and a draft; empty iff the uuid is unknown; otherwise a record of the uuid at least as recent as all its records |
| SchemaService.PublishedOnly | src/main/java/nl/dtls/fairdatapoint/service/schema/MetadataSchemaService.java:101 | exactly the published records of a list |
| SchemaService.PublishedOnlyAll | src/main/java/nl/dtls/fairdatapoint/service/schema/MetadataSchemaService.java:101 | without drafts nothing is dropped |
| SchemaService.MostRecentPublished | src/main/java/nl/dtls/fairdatapoint/service/schema/MetadataSchemaService.java:101 | the most recent published record of the uuid, None iff it has none; never compares a draft |
| SchemaService.MostRecentWithoutDraft | src/main/java/nl/dtls/fairdatapoint/service/schema/MetadataSchemaService.java:79-81 | where a uuid has no draft, getMostRecentVersion is the most recent published record |
| SchemaService.GetDraft | src/main/java/nl/dtls/fairdatapoint/service/schema/MetadataSchemaService.java:70-77 | the stored draft's detail view; else the draft view of the most recent version, or empty, or the comparator's failure |
| SchemaService.GetDraftOnValidStore | src/main/java/nl/dtls/fairdatapoint/service/schema/MetadataSchemaService.java:70-77 | on a valid table getDraft never fails, is empty iff the uuid is unknown and is always a draft view |
| SchemaService.GetDetail | src/main/java/nl/dtls/fairdatapoint/service/schema/MetadataSchemaService.java:83-85 | empty iff no record has that uuid and version string; otherwise that record's detail view |
| SchemaService.ExtractExtendsSchemas | src/main/java/nl/dtls/fairdatapoint/service/schema/MetadataSchemaService.java:110-118 | succeeds iff every parent coordinate names a stored record, giving those records in order; else fails on the first missing coordinate |
| SchemaService.ExtractChildren | src/main/java/nl/dtls/fairdatapoint/service/schema/MetadataSchemaService.java:120-128 | succeeds iff every child coordinate names a stored record, giving children pointing at them in order; else fails on the first missing coordinate |
| SchemaService.ParentNotFoundLater | src/main/java/nl/dtls/fairdatapoint/service/schema/MetadataSchemaService.java:111-117 | a parent missing after a resolved first coordinate is the first missing one of the whole list |
| SchemaService.ChildNotFoundLater | src/main/java/nl/dtls/fairdatapoint/service/schema/MetadataSchemaService.java:121-127 | a child missing after a resolved first coordinate is the first missing one of the whole list |
| SchemaService.CreatedDraft | src/main/java/nl/dtls/fairdatapoint/service/schema/MetadataSchemaService.java:87-92 | succeeds iff parents and children all resolve; a missing parent is reported first, and with all parents resolved the first missing child is reported; the result is a new draft of the given uuid with that content |
| SchemaService.UpdatedDraftAsWritten | src/main/java/nl/dtls/fairdatapoint/service/schema/MetadataSchemaService.java:97-108 | as written: empty iff no draft; fails iff the comparator meets a draft (reported first), or a parent, or a child is missing, in that order; otherwise the draft with the client's content, same id and uuid, still a draft, whose previous version is getMostRecentVersion, a record of the uuid, the draft included |
| SchemaService.UpdatedDraft | src/main/java/nl/dtls/fairdatapoint/service/schema/MetadataSchemaService.java:97-108 | corrected: empty iff no draft; fails iff a reference is missing, the first missing parent reported, else the first missing child; else the draft with the client's content keeps its id, stays a draft, and its previous version is the most recent published record (never a draft) |
| SchemaService.UpdatedDraftPassesVersionCheck | src/main/java/nl/dtls/fairdatapoint/service/schema/MetadataSchemaService.java:101 | a draft updated by the corrected rule always passes validateVersion |
| SchemaService.UpdateLoneDraftAsWritten | src/main/java/nl/dtls/fairdatapoint/service/schema/MetadataSchemaService.java:101 | as written, a lone draft becomes its own previous version, which validateVersion rejects as draft on draft |
| SchemaService.UpdateLoneDraftCorrected | src/main/java/nl/dtls/fairdatapoint/service/schema/MetadataSchemaService.java:101 | corrected, a lone draft gets no previous version |
| SchemaService.UpdateDraftWithReleaseAsWritten | src/main/java/nl/dtls/fairdatapoint/service/schema/MetadataSchemaService.java:101 | as written, a draft whose uuid has version 1.0.0 makes the comparator fail on the draft's missing version |
| SchemaService.UpdateDraftWithReleaseCorrected | src/main/java/nl/dtls/fairdatapoint/service/schema/MetadataSchemaService.java:101 | corrected, a draft whose uuid has version 1.0.0 gets 1.0.0 as its previous version |
| SchemaService.PublishedDraft | src/main/java/nl/dtls/fairdatapoint/service/schema/MetadataSchemaService.java:131-133 | empty iff no draft; fails iff the version does not parse; else the draft, under its id, published with the given version string |
| SchemaService.StoredCoordsResolve | src/main/java/nl/dtls/fairdatapoint/service/schema/MetadataSchemaMapper.java:96-101 | the coordinates of a stored record (its uuid and version string) resolve to a stored record of that uuid and version string; for a draft, to the record itself |
| SchemaService.DifferentRecordsDifferentIds | src/main/java/nl/dtls/fairdatapoint/service/schema/MetadataSchemaService.java:93 | on a valid table two different records have different ids |
| SchemaService.OnlyDraft | src/main/java/nl/dtls/fairdatapoint/service/schema/MetadataSchemaService.java:99 | on a valid table the draft found is the uuid's only record without a version string |
| SchemaService.SaveNewKeepsValid | src/main/java/nl/dtls/fairdatapoint/service/schema/MetadataSchemaService.java:93 | saving a new record (no second draft for its uuid) keeps the table valid |
| SchemaService.SaveReplacingKeepsValid | src/main/java/nl/dtls/fairdatapoint/service/schema/MetadataSchemaService.java:105 | saving a record under a stored id replaces it in place and keeps the table valid |
| SchemaService.AppendKeepsValid | src/main/java/nl/dtls/fairdatapoint/service/schema/MetadataSchemaService.java:93 | appending a record with a fresh id and no second draft keeps the table valid |
| SchemaService.RemoveKeepsValid | src/main/java/nl/dtls/fairdatapoint/service/schema/MetadataSchemaService.java:141 | deleting a record keeps the table valid |
| SchemaService.ReplaceDraft | src/main/java/nl/dtls/fairdatapoint/service/schema/MetadataSchemaService.java:105 | saving over the uuid's draft replaces exactly that record, keeps the table valid, and leaves a draft iff the new record is one |
| SchemaService.SaveOverDraftEffect | src/main/java/nl/dtls/fairdatapoint/service/schema/MetadataSchemaService.java:134 | saving a record under the draft's id keeps the next id and validity, replaces that record only, and leaves a draft iff the record is one |
| SchemaService.DeleteDraftEffect | src/main/java/nl/dtls/fairdatapoint/service/schema/MetadataSchemaService.java:139-143 | deleting the draft by id keeps the table valid, leaves the uuid without a draft, and keeps every other record in order |
| SchemaService.MetadataSchemaService.Save | src/main/java/nl/dtls/fairdatapoint/service/schema/MetadataSchemaService.java:93 | the table and next id become exactly what save gives |
| SchemaService.MetadataSchemaService.SaveOverDraft | src/main/java/nl/dtls/fairdatapoint/service/schema/MetadataSchemaService.java:134 | the record takes the draft's place, every other record unchanged, the table valid |
| SchemaService.MetadataSchemaService.CreateDraft | src/main/java/nl/dtls/fairdatapoint/service/schema/MetadataSchemaService.java:87-95 | on success the new draft is appended under the next id and its detail view returned; on a missing reference nothing is saved |
| SchemaService.MetadataSchemaService.UpdateDraft | src/main/java/nl/dtls/fairdatapoint/service/schema/MetadataSchemaService.java:97-108 | as written: without a draft, on the comparator's failure or with a missing reference nothing changes; otherwise the updated draft replaces the old one in place, every other record unchanged, the table valid |
| SchemaService.MetadataSchemaService.UpdateDraftCorrected | src/main/java/nl/dtls/fairdatapoint/service/schema/MetadataSchemaService.java:97-108 | the same update with the corrected previous version: nothing changes without a draft or with a missing reference; otherwise the updated draft replaces the old one in place |
| SchemaService.MetadataSchemaService.SaveResult | src/main/java/nl/dtls/fairdatapoint/service/schema/MetadataSchemaService.java:105 | a result holding a record replaces the uuid's draft in place (every other record unchanged, the table valid, a draft left iff the record is one); any other result leaves the table as it is |
| SchemaService.MetadataSchemaService.PublishDraft | src/main/java/nl/dtls/fairdatapoint/service/schema/MetadataSchemaService.java:130-137 | without a draft, or with an unparsable version, nothing changes; otherwise the published record replaces the draft under its id and the uuid is left with no draft |
| SchemaService.MetadataSchemaService.DeleteDraft | src/main/java/nl/dtls/fairdatapoint/service/schema/MetadataSchemaService.java:139-143 | true iff a draft existed; afterwards the uuid has no draft and every other record remains, in order |
| KeywordText.LettersAndDigits | src/main/java/nl/dtls/fairdatapoint/database/ontology/OntologySearcher.java:330-341 | wordWithoutPunctuation: never longer, only letters and digits, every character from the input |
| KeywordText.LettersAndDigitsKeeps | src/main/java/nl/dtls/fairdatapoint/database/ontology/OntologySearcher.java:330-341 | keeps every letter and digit of the input with its multiplicity and in order, and nothing else |
| KeywordText.LettersAndDigitsFixed | src/main/java/nl/dtls/fairdatapoint/database/ontology/OntologySearcher.java:330-341 | a word of letters and digits only is left unchanged |
| KeywordText.LettersAndDigitsIdempotent | src/main/java/nl/dtls/fairdatapoint/database/ontology/OntologySearcher.java:330-341 | stripping twice is stripping once |
| JavaStrings.ToLower | src/main/java/nl/dtls/fairdatapoint/database/ontology/OntologySearcher.java:316 | toLowerCase: same length, no upper-case letter left, letters and digits stay letters and digits, other characters unchanged |
| KeywordText.Tokens | src/main/java/nl/dtls/fairdatapoint/database/ontology/OntologySearcher.java:318 | the space-separated tokens of the lower-cased input contain no upper-case letter |
| KeywordText.FilterTokens | src/main/java/nl/dtls/fairdatapoint/database/ontology/OntologySearcher.java:318-325 | at most one keyword per token; from lower-case tokens every result is a keyword |
| KeywordText.Keywords | src/main/java/nl/dtls/fairdatapoint/database/ontology/OntologySearcher.java:314-328 | never more keywords than tokens; every keyword is lower-case letters and digits, longer than three characters and not a stopword |
| KeywordText.FilterTokensAppend | src/main/java/nl/dtls/fairdatapoint/database/ontology/OntologySearcher.java:318-325 | the tokens are processed one by one: filtering a concatenation concatenates the results |
| KeywordText.FilterTokensInOrder | src/main/java/nl/dtls/fairdatapoint/database/ontology/OntologySearcher.java:316-327 | the keywords are a subsequence of the stripped tokens: the survivors in order |
| KeywordText.KeywordOccurrences | src/main/java/nl/dtls/fairdatapoint/database/ontology/OntologySearcher.java:316-327 | a keyword occurs as often as the stripped tokens equal to it; a non-keyword never |
| KeywordText.MatchEnd | src/main/java/nl/dtls/fairdatapoint/database/ontology/OntologySearcher.java:298 | where `$` can match: the end, or before one final line terminator |
| KeywordText.StringFromLiteral | src/main/java/nl/dtls/fairdatapoint/database/ontology/OntologySearcher.java:298-312 | a match gives the text between the leading quote and a trailing `"^^xsd:string` (any case), with no line terminator in it |
| KeywordText.StringFromLiteralComplete | src/main/java/nl/dtls/fairdatapoint/database/ontology/OntologySearcher.java:298-312 | every literal of that form is matched and gives back its text |
| OntologySearcher.OntologySearcher.GetKeywordsFromString | src/main/java/nl/dtls/fairdatapoint/database/ontology/OntologySearcher.java:314-328 | the loop returns exactly the keywords of the input |
| OntologySearcher.WordWithoutPunctuation | src/main/java/nl/dtls/fairdatapoint/database/ontology/OntologySearcher.java:330-341 | the loop returns exactly the letters and digits of the input |
| OntologySearcher.Counts | src/main/java/nl/dtls/fairdatapoint/database/ontology/OntologySearcher.java:244-278 | the table has a key iff the word occurs, mapped to its number of occurrences (at least 1) |
| OntologySearcher.CountsSnoc | src/main/java/nl/dtls/fairdatapoint/database/ontology/OntologySearcher.java:265-271 | one more occurrence raises that word's count by one and leaves the others |
| OntologySearcher.CountsConcat | src/main/java/nl/dtls/fairdatapoint/database/ontology/OntologySearcher.java:229-242 | the table of two lists together has the union of keys and the sums of counts |
| OntologySearcher.SummedCounts | src/main/java/nl/dtls/fairdatapoint/database/ontology/OntologySearcher.java:229-242 | a table summed as sumWordCounts does it is the table of the two lists together |
| OntologySearcher.AddCounts | src/main/java/nl/dtls/fairdatapoint/database/ontology/OntologySearcher.java:263-272 | the inner loop turns the table of the words seen into the table of those and the new words |
| OntologySearcher.OntologySearcher.GetClassWordCounts | src/main/java/nl/dtls/fairdatapoint/database/ontology/OntologySearcher.java:244-278 | the count table of the keywords of the class's string-literal labels; other values add nothing |
| OntologySearcher.SumWordCounts | src/main/java/nl/dtls/fairdatapoint/database/ontology/OntologySearcher.java:229-242 | each new key maps to its old total (0 if absent) plus its new count; other keys unchanged; no other keys |
| OntologySearcher.PairWithAll | src/main/java/nl/dtls/fairdatapoint/database/ontology/OntologySearcher.java:285-292 | exactly the pairs (keyword, w) for each word w, once each |
| OntologySearcher.MakeWordAssociations | src/main/java/nl/dtls/fairdatapoint/database/ontology/OntologySearcher.java:280-296 | n·n associations, exactly the ordered pairs of the words (self-pairs included), each once: the multiset of Pairs(words) |
| OntologySearcher.WordCountRecords | src/main/java/nl/dtls/fairdatapoint/database/ontology/OntologySearcher.java:211-227 | one record per table entry, with its count |
| OntologySearcher.OntologySearcher.IndexClasses | src/main/java/nl/dtls/fairdatapoint/database/ontology/OntologySearcher.java:193-205 | the batch is, as a multiset, every ordered pair of each class's distinct keywords, once per class (PairBag); so exactly the co-occurring pairs, as many as the squares of the classes' distinct keyword counts; the totals are the counts over all classes |
| OntologySearcher.OntologySearcher.IndexOntology | src/main/java/nl/dtls/fairdatapoint/database/ontology/OntologySearcher.java:193-209 | both repositories grow by exactly the new records: associations whose multiset is PairBag of the classes, and the corpus-wide count records |
| OntologySearcher.OntologySearcher.Init | src/main/java/nl/dtls/fairdatapoint/database/ontology/OntologySearcher.java:114-121 | indexes only when the association repository is empty and the thesaurus loaded; otherwise changes nothing |
| OntologySearcher.FindByKey | src/main/java/nl/dtls/fairdatapoint/database/ontology/OntologySearcher.java:123-126 | exactly the stored associations with that key |
| OntologySearcher.AddValues | src/main/java/nl/dtls/fairdatapoint/database/ontology/OntologySearcher.java:368-370 | adds the value of every association found |
| OntologySearcher.ExtendedMembers | src/main/java/nl/dtls/fairdatapoint/database/ontology/OntologySearcher.java:360-374 | a word is in the expansion iff it is a keyword or the value of an association keyed by a keyword |
| OntologySearcher.OntologySearcher.GetExtendedKeywords | src/main/java/nl/dtls/fairdatapoint/database/ontology/OntologySearcher.java:360-374 | the keywords of the input plus every value stored under one of them, no relevance filter |
| SearchService.OnlyKeywordsOccur | src/main/java/nl/dtls/fairdatapoint/service/search/SearchService.java:96-108 | with the searcher's extraction, a word that is not a keyword never occurs in a document |
| SearchService.CountWordOccurenceIn | src/main/java/nl/dtls/fairdatapoint/service/search/SearchService.java:96-104 | the number of the document's keywords (title and description run together) equal to the word; at most countWordsIn; positive iff it occurs |
| SearchService.FindAssociatedWords | src/main/java/nl/dtls/fairdatapoint/service/search/SearchService.java:132-145 | exactly the values of the associations whose relevance is strictly above 2.7 |
| SearchService.ScoreAppend | src/main/java/nl/dtls/fairdatapoint/service/search/SearchService.java:158-183 | contributions of different words add up |
| SearchService.ScoreNotRetrieved | src/main/java/nl/dtls/fairdatapoint/service/search/SearchService.java:157-183 | a document no lookup returned scores 0 |
| SearchService.AccumulateWord | src/main/java/nl/dtls/fairdatapoint/service/search/SearchService.java:161-182 | a word without hits is skipped (no division by zero); otherwise each hit is entered and its score grows by the word's tf·idf once per hit |
| SearchService.AccumulatedScores | src/main/java/nl/dtls/fairdatapoint/service/search/SearchService.java:168-182 | after the inner loop a document is scored iff it was or is a hit, its score grown by tf·idf once per hit |
| SearchService.AccumulatedWord | src/main/java/nl/dtls/fairdatapoint/service/search/SearchService.java:168-182 | the inner loop over all of a word's hits adds exactly the word's contribution to each document's score and enters exactly the hits |
| SearchService.AddHit | src/main/java/nl/dtls/fairdatapoint/service/search/SearchService.java:171-181 | tf is matches over keyword count (guarded to be positive), the score tf·idf added to the old score or entered |
| SearchService.ScoreResults | src/main/java/nl/dtls/fairdatapoint/service/search/SearchService.java:157-183 | the scored documents are exactly those retrieved by some word, each with the sum of the words' contributions |
| SearchService.SortSearchResultsByScores | src/main/java/nl/dtls/fairdatapoint/service/search/SearchService.java:110-124 | the array becomes a permutation of itself ordered by non-increasing score |
| SearchService.InsertLast | src/main/java/nl/dtls/fairdatapoint/service/search/SearchService.java:112-123 | one insertion pass: a permutation whose first i + 1 documents are ranked |
| SearchService.ProcessedGroups | src/main/java/nl/dtls/fairdatapoint/service/search/SearchService.java:270-291 | every group of the processed results has its own URI, passes the filter and holds at least one document, each of that URI |
| SearchService.RankingOfScores | src/main/java/nl/dtls/fairdatapoint/service/search/SearchService.java:186-187 | the sorted key set is exactly the retrieved documents, each once, by non-increasing score |
| SearchService.RankResults | src/main/java/nl/dtls/fairdatapoint/service/search/SearchService.java:158-187 | the scored and sorted documents: exactly those retrieved for the words, each once, by non-increasing score |
| SearchService.Uris | src/main/java/nl/dtls/fairdatapoint/service/search/SearchService.java:286 | the URIs of the documents, in order |
| SearchService.WithUri | src/main/java/nl/dtls/fairdatapoint/service/search/SearchService.java:274-276 | groupingBy(uri): exactly the documents with that URI |
| SearchService.GroupsOf | src/main/java/nl/dtls/fairdatapoint/service/search/SearchService.java:281-283 | one group per URI that passes the filter, with all its documents, and no other |
| SearchService.GroupsOfOrder | src/main/java/nl/dtls/fairdatapoint/service/search/SearchService.java:284-290 | the groups' URIs are a subsequence of the distinct URIs |
| SearchService.ProcessSearchResults | src/main/java/nl/dtls/fairdatapoint/service/search/SearchService.java:270-291 | each URI at most once, exactly those passing the draft filter, in order of first appearance, grouped with all its documents |
| SearchService.Search | src/main/java/nl/dtls/fairdatapoint/service/search/SearchService.java:147-190 | the expanded words are the relevant association values; the ranked documents are exactly those retrieved, each once, by non-increasing score; the groups are the processed ranking, one per URI, each passing the filter and non-empty |
| Sequences.Count | src/main/java/nl/dtls/fairdatapoint/service/search/SearchService.java:97-103 | the number of positions equal to x: its multiplicity |
| Sequences.Dedup | src/main/java/nl/dtls/fairdatapoint/service/search/SearchService.java:287 | distinct(): the same members, no repeats |
| Sequences.DedupFirstAppearance | src/main/java/nl/dtls/fairdatapoint/service/search/SearchService.java:287 | distinct() keeps the order of first appearance |
| Sequences.SetToSeq | src/main/java/nl/dtls/fairdatapoint/service/search/SearchService.java:158 | iterating a set visits each member once |

## Left out

- Character classes are ASCII only: `Character.isLetterOrDigit`, `toLowerCase` and `parseInt` see only ASCII letters and digits. Unicode letters and digits and locale-specific lower-casing are not modelled.
- `%d` in `SemanticVersion.toString` is printed as plain ASCII decimal. Locales with other digits are not modelled.
- `SemanticVersion.isSuccessor` has no definition in `SemanticVersion.java`, though `MetadataSchemaValidator.java:67` calls it. It is not part of this model: `ValidateVersion`, `Validate` and `UpdatedDraftPassesVersionCheck` take it as a parameter, an arbitrary relation between two versions.
- Floating point is modelled as `real`:
  - `Math.log` in the inverse document frequency is not modelled; the idf of each word is a parameter;
  - there is no rounding;
  - tf is matches over keyword count. The 0/0 (NaN) case is excluded by a precondition of the search: a document retrieved for a word above the relevance threshold has at least one keyword.
- `getKeywordRankingScore` (a `1.0 / count` double used to rank OWL lookups) is not modelled, since it is pure floating point. The search reads the stored associations with their relevance as its input.
- SearchService.SortSearchResultsByScores: the library merge sort (`List.sort`) is modelled by an insertion sort over an array. The model proves that the result is a permutation ordered by non-increasing score. It does not prove stability.
- SchemaService.SortBy: stability (records of equal version keep their order) is not proved either. Only sortedness and permutation are.
- Iteration order of `HashMap`/`HashSet` is unspecified in Java:
  - the search's word set and score table are visited in an order the model returns as ghost outputs (`order`, `ranked`);
  - `getAllBundles` groups by uuid in order of first appearance in the table. Java's `groupingBy` leaves that order unspecified.
- `findByUuidAndVersion` returning more than one record (a Spring Data exception) is not modelled. The table invariant (at most one draft per uuid) excludes it for drafts. For published versions the first match is taken.
- `MetadataSchemaRepository` (Spring Data MongoDB) is not part of this model. It is a sequence of records with `save`:
  - a record without an id is appended under the next id;
  - a record with a stored id replaces that record.
- `MetadataSchemaService.CreateDraft`: the uuid comes from `UUID.randomUUID()` in Java. Here it is a parameter that must not name a stored schema.
- Ontology download and parsing (OWL API, HTTP), the stopword file and the repositories' MongoDB I/O are left out:
  - the stopwords are a set parameter;
  - an ontology is a sequence of classes, each with its label annotation values;
  - a class is the list of its label annotation values in iteration order. The model takes this list after the `LinkedHashSet` has removed duplicate annotations and does not model the deduplication itself.
- A `null` `Boolean abstractSchema` is not modelled; it is a plain boolean.
- The validator's message text is not modelled. Errors are datatype values naming the check and the offending schema.
- The service itself does not call the validator, and neither does the model. `UpdatedDraftPassesVersionCheck` relates the two.
- The searcher stores `WordAssociation` records, while the search service reads `TermAssociation` records with a relevance. The model takes the latter as the search's input and does not connect the two repositories.
- `isUsableForFilter` queries SPARQL. It is an abstract predicate `usable` on URIs.
- `SearchMapper.toResultDTO` is modelled as a `ResultGroup` of a URI and its documents.
- The SPARQL-based parts of `SearchService` (query templates, filters, `searchFilters`, the literal lookup itself) are left out. The lookup is a function parameter `findByLiteral`.
- `SearchResult.equals`/`hashCode` are not part of this model. A `SearchResult` is a value, so two hits with equal fields are merged into one score entry, as a value-based `equals` would do in the `HashMap`.
- `MetadataSchemaRepository.findByUuidAndVersion` is not part of this model. It is read as a Spring Data derived query on the stored `versionString`, so `FindByUuidAndVersion` matches on the version string, and `None` finds the draft.
- VersionKey gives a draft the key 0.0.0. That value is never consulted: every sort and maximum over a group holding a draft is either a failure (the comparator's null dereference) or a group of one.

## Findings

| source | as written | input that shows it | evidently intended | confidence | as-written member | corrected member |
|---|---|---|---|---|---|---|
| src/main/java/nl/dtls/fairdatapoint/service/schema/MetadataSchemaService.java:101 | `updateDraft` sets the draft's previous version to `getMostRecentVersion(uuid)`, computed over all records of the uuid including the draft being updated | a uuid whose only record is a draft: the draft becomes its own previous version, which `validateVersion` rejects (draft on draft); a draft together with published 1.0.0: the comparator dereferences the draft's null version | the previous version is the most recent *published* record of the uuid, or none | medium, not executed | SchemaService.UpdatedDraftAsWritten | SchemaService.UpdatedDraft |
