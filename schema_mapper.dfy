/**
 * MetadataSchemaMapper: the views of schemas sent to clients, and the schemas built from what
 * clients send. A client's change describes a draft; a publication gives it a version.
 */
module MetadataSchemaMapper {
  import opened Wrappers
  import opened SemanticVersions
  import opened MetadataSchemas

  /** A (uuid, version) pair naming one stored schema; the version of a draft is None. */
  datatype MetadataSchemaCoordsDTO = MetadataSchemaCoordsDTO(uuid: string, version: Option<string>)

  datatype MetadataSchemaLinkDTO = MetadataSchemaLinkDTO(title: string, propertyUri: string)

  datatype MetadataSchemaChildMetadataDTO = MetadataSchemaChildMetadataDTO(title: string, propertyUri: string)

  datatype MetadataSchemaChildDTO = MetadataSchemaChildDTO(
    schemaUuid: string,
    schemaVersion: Option<string>,
    relationUri: string,
    title: string,
    tagsUri: string,
    metadata: seq<MetadataSchemaChildMetadataDTO>)

  datatype MetadataSchemaBundleVersionDTO = MetadataSchemaBundleVersionDTO(
    version: Option<string>,
    name: string,
    abstractSchema: bool,
    urlPrefix: string,
    extendsSchemas: seq<MetadataSchemaCoordsDTO>,
    children: seq<MetadataSchemaCoordsDTO>)

  datatype MetadataSchemaBundleDTO = MetadataSchemaBundleDTO(
    uuid: string,
    name: string,
    hasDraft: bool,
    versions: seq<MetadataSchemaBundleVersionDTO>)

  datatype MetadataSchemaDetailDTO = MetadataSchemaDetailDTO(
    uuid: string,
    version: Option<string>,
    draft: bool,
    urlPrefix: string,
    name: string,
    shapeDefinition: string,
    description: string,
    abstractSchema: bool,
    extendsSchemas: seq<MetadataSchemaCoordsDTO>,
    children: seq<MetadataSchemaChildDTO>,
    externalLinks: seq<MetadataSchemaLinkDTO>)

  /** What a client sends to create or change a draft. */
  datatype MetadataSchemaChangeDTO = MetadataSchemaChangeDTO(
    name: string,
    description: string,
    abstractSchema: bool,
    shapeDefinition: string,
    urlPrefix: string,
    extendsSchemas: seq<MetadataSchemaCoordsDTO>,
    children: seq<MetadataSchemaChildDTO>,
    externalLinks: seq<MetadataSchemaLinkDTO>)

  /** What a client sends to publish a draft. */
  datatype MetadataSchemaPublishDTO = MetadataSchemaPublishDTO(version: string, description: string)

  function ToCoordsDTO(s: MetadataSchema): MetadataSchemaCoordsDTO {
    MetadataSchemaCoordsDTO(s.uuid, s.versionString)
  }

  /** toLinkDTO: the client's view of a link, from which fromLinkDTO gives the link back. */
  function ToLinkDTO(link: MetadataSchemaLink): (r: MetadataSchemaLinkDTO)
    ensures FromLinkDTO(r) == link
  {
    MetadataSchemaLinkDTO(link.title, link.propertyUri)
  }

  /** fromLinkDTO: the link a client describes (LinkRoundTrip: its view is that description again). */
  function FromLinkDTO(dto: MetadataSchemaLinkDTO): MetadataSchemaLink {
    MetadataSchemaLink(dto.title, dto.propertyUri)
  }

  function ToChildMetadataDTO(m: MetadataSchemaChildMetadata): MetadataSchemaChildMetadataDTO {
    MetadataSchemaChildMetadataDTO(m.title, m.propertyUri)
  }

  function FromChildMetadataDTO(dto: MetadataSchemaChildMetadataDTO): MetadataSchemaChildMetadata {
    MetadataSchemaChildMetadata(dto.title, dto.propertyUri)
  }

  function ToChildMetadataDTOs(ms: seq<MetadataSchemaChildMetadata>): (r: seq<MetadataSchemaChildMetadataDTO>)
    ensures |r| == |ms| && forall k :: 0 <= k < |r| ==> r[k] == ToChildMetadataDTO(ms[k])
  {
    if ms == [] then [] else [ToChildMetadataDTO(ms[0])] + ToChildMetadataDTOs(ms[1..])
  }

  function FromChildMetadataDTOs(dtos: seq<MetadataSchemaChildMetadataDTO>): (r: seq<MetadataSchemaChildMetadata>)
    ensures |r| == |dtos| && forall k :: 0 <= k < |r| ==> r[k] == FromChildMetadataDTO(dtos[k])
  {
    if dtos == [] then [] else [FromChildMetadataDTO(dtos[0])] + FromChildMetadataDTOs(dtos[1..])
  }

  /**
   * toChildDTO: the client's view of a child, naming the child schema by its coordinates; the
   * child is rebuilt from it and the schema those coordinates name.
   */
  function ToChildDTO(child: MetadataSchemaChild): (r: MetadataSchemaChildDTO)
    ensures r.schemaUuid == child.childSchema.uuid && r.schemaVersion == child.childSchema.versionString
    ensures FromChildDTO(r, child.childSchema) == child
  {
    var metadata := ToChildMetadataDTOs(child.metadata);
    assert FromChildMetadataDTOs(metadata) == child.metadata;
    MetadataSchemaChildDTO(
      child.childSchema.uuid, child.childSchema.versionString, child.relationUri, child.title, child.tagsUri, metadata)
  }

  function ToChildDTOs(children: seq<MetadataSchemaChild>): (r: seq<MetadataSchemaChildDTO>)
    ensures |r| == |children| && forall k :: 0 <= k < |r| ==> r[k] == ToChildDTO(children[k])
  {
    if children == [] then [] else [ToChildDTO(children[0])] + ToChildDTOs(children[1..])
  }

  /** The coordinates of the listed schemas. */
  function ToCoordsDTOs(schemas: seq<MetadataSchema>): (r: seq<MetadataSchemaCoordsDTO>)
    ensures |r| == |schemas| && forall k :: 0 <= k < |r| ==> r[k] == ToCoordsDTO(schemas[k])
  {
    if schemas == [] then [] else [ToCoordsDTO(schemas[0])] + ToCoordsDTOs(schemas[1..])
  }

  /** The coordinates of the child schemas. */
  function ToChildCoordsDTOs(children: seq<MetadataSchemaChild>): (r: seq<MetadataSchemaCoordsDTO>)
    ensures |r| == |children| && forall k :: 0 <= k < |r| ==> r[k] == ToCoordsDTO(children[k].childSchema)
  {
    if children == [] then [] else [ToCoordsDTO(children[0].childSchema)] + ToChildCoordsDTOs(children[1..])
  }

  function ToLinkDTOs(links: seq<MetadataSchemaLink>): (r: seq<MetadataSchemaLinkDTO>)
    ensures |r| == |links| && forall k :: 0 <= k < |r| ==> r[k] == ToLinkDTO(links[k])
  {
    if links == [] then [] else [ToLinkDTO(links[0])] + ToLinkDTOs(links[1..])
  }

  /** The links of a schema as given by the client. */
  function FromLinkDTOs(dtos: seq<MetadataSchemaLinkDTO>): (r: seq<MetadataSchemaLink>)
    ensures |r| == |dtos| && forall k :: 0 <= k < |r| ==> r[k] == FromLinkDTO(dtos[k])
  {
    if dtos == [] then [] else [FromLinkDTO(dtos[0])] + FromLinkDTOs(dtos[1..])
  }

  /** A link is given back unchanged by the client view and the way back. */
  lemma LinkRoundTrip(link: MetadataSchemaLink, dto: MetadataSchemaLinkDTO)
    ensures FromLinkDTO(ToLinkDTO(link)) == link
    ensures ToLinkDTO(FromLinkDTO(dto)) == dto
  {
  }

  /** fromChildDTO: a child entry pointing at the schema the coordinates of the DTO resolved to. */
  function FromChildDTO(dto: MetadataSchemaChildDTO, schema: MetadataSchema): (r: MetadataSchemaChild)
    ensures r.childSchema == schema && r.relationUri == dto.relationUri && r.title == dto.title && r.tagsUri == dto.tagsUri
    ensures |r.metadata| == |dto.metadata| && forall k :: 0 <= k < |r.metadata| ==> ToChildMetadataDTO(r.metadata[k]) == dto.metadata[k]
  {
    MetadataSchemaChild(schema, dto.relationUri, dto.title, dto.tagsUri, FromChildMetadataDTOs(dto.metadata))
  }

  /** A child made from a DTO and the schema its coordinates name gives that DTO back. */
  lemma ChildRoundTrip(dto: MetadataSchemaChildDTO, schema: MetadataSchema)
    requires schema.uuid == dto.schemaUuid && schema.versionString == dto.schemaVersion
    ensures ToChildDTO(FromChildDTO(dto, schema)) == dto
  {
    var back := ToChildDTO(FromChildDTO(dto, schema));
    assert back.metadata == dto.metadata;
  }

  /** toVersionDTO: one version in a bundle, with the coordinates of its parents and children. */
  function ToVersionDTO(s: MetadataSchema): (r: MetadataSchemaBundleVersionDTO)
    ensures r.version == s.versionString && r.name == s.name && r.abstractSchema == s.abstractSchema && r.urlPrefix == s.urlPrefix
    ensures |r.extendsSchemas| == |s.extendsSchemas| &&
            forall k :: 0 <= k < |r.extendsSchemas| ==> r.extendsSchemas[k] == ToCoordsDTO(s.extendsSchemas[k])
    ensures |r.children| == |s.children| &&
            forall k :: 0 <= k < |r.children| ==> r.children[k] == ToCoordsDTO(s.children[k].childSchema)
  {
    MetadataSchemaBundleVersionDTO(
      s.versionString, s.name, s.abstractSchema, s.urlPrefix, ToCoordsDTOs(s.extendsSchemas), ToChildCoordsDTOs(s.children))
  }

  function ToVersionDTOs(schemas: seq<MetadataSchema>): (r: seq<MetadataSchemaBundleVersionDTO>)
    ensures |r| == |schemas| && forall k :: 0 <= k < |r| ==> r[k] == ToVersionDTO(schemas[k])
  {
    if schemas == [] then [] else [ToVersionDTO(schemas[0])] + ToVersionDTOs(schemas[1..])
  }

  /** Some schema of the list is a draft (Stream.anyMatch). */
  function AnyDraft(schemas: seq<MetadataSchema>): (r: bool)
    ensures r <==> exists s :: s in schemas && IsDraft(s)
  {
    if schemas == [] then false
    else
      assert forall s :: s in schemas <==> s == schemas[0] || s in schemas[1..];
      IsDraft(schemas[0]) || AnyDraft(schemas[1..])
  }

  /**
   * toBundleDTO: the versions of one schema, named after the first of them. The list must not
   * be empty: the source reads its first element.
   */
  function ToBundleDTO(schemas: seq<MetadataSchema>): (r: MetadataSchemaBundleDTO)
    requires |schemas| > 0
    ensures r.uuid == schemas[0].uuid && r.name == schemas[0].name
    ensures r.hasDraft <==> exists s :: s in schemas && IsDraft(s)
    ensures |r.versions| == |schemas| && forall k :: 0 <= k < |schemas| ==> r.versions[k] == ToVersionDTO(schemas[k])
  {
    MetadataSchemaBundleDTO(schemas[0].uuid, schemas[0].name, AnyDraft(schemas), ToVersionDTOs(schemas))
  }

  /** toDetailDTO: the full client view of one schema; it is marked draft exactly when it has no version. */
  function ToDetailDTO(s: MetadataSchema): (r: MetadataSchemaDetailDTO)
    ensures r.draft <==> IsDraft(s)
    ensures r.uuid == s.uuid && r.version == s.versionString && r.urlPrefix == s.urlPrefix && r.name == s.name
    ensures r.shapeDefinition == s.shapeDefinition && r.description == s.description && r.abstractSchema == s.abstractSchema
    ensures |r.extendsSchemas| == |s.extendsSchemas| &&
            forall k :: 0 <= k < |s.extendsSchemas| ==> r.extendsSchemas[k] == ToCoordsDTO(s.extendsSchemas[k])
    ensures |r.children| == |s.children| && forall k :: 0 <= k < |s.children| ==> r.children[k] == ToChildDTO(s.children[k])
    ensures |r.externalLinks| == |s.links| && forall k :: 0 <= k < |s.links| ==> FromLinkDTO(r.externalLinks[k]) == s.links[k]
  {
    MetadataSchemaDetailDTO(
      s.uuid, s.versionString, IsDraft(s), s.urlPrefix, s.name, s.shapeDefinition, s.description, s.abstractSchema,
      ToCoordsDTOs(s.extendsSchemas), ToChildDTOs(s.children), ToLinkDTOs(s.links))
  }

  /** toDraftDetailDTO: the detail view of a schema shown as a draft: no version, marked draft, all else as toDetailDTO. */
  function ToDraftDetailDTO(s: MetadataSchema): (r: MetadataSchemaDetailDTO)
    ensures r.draft && r.version.None?
    ensures r == ToDetailDTO(s).(draft := true, version := None)
  {
    ToDetailDTO(s).(draft := true, version := None)
  }

  /**
   * fromChangeDTO for a new schema: a draft under the given uuid with the client's content,
   * the resolved parents and children, and no previous version.
   */
  function FromChangeDTO(dto: MetadataSchemaChangeDTO, uuid: string, extendsSchemas: seq<MetadataSchema>,
                         children: seq<MetadataSchemaChild>): (r: MetadataSchema)
    ensures IsDraft(r) && r.versionString.None? && r.previousVersion.None? && r.id.None?
    ensures r.uuid == uuid && r.name == dto.name && r.description == dto.description
    ensures r.shapeDefinition == dto.shapeDefinition && r.urlPrefix == dto.urlPrefix && r.abstractSchema == dto.abstractSchema
    ensures r.extendsSchemas == extendsSchemas && r.children == children && r.links == FromLinkDTOs(dto.externalLinks)
  {
    MetadataSchema(None, uuid, None, None, dto.urlPrefix, dto.name, dto.shapeDefinition, dto.description,
                   dto.abstractSchema, None, extendsSchemas, children, FromLinkDTOs(dto.externalLinks))
  }

  /**
   * fromChangeDTO for an existing draft: the draft (its id and uuid kept) with the client's
   * content, the resolved parents and children, and the given previous version.
   */
  function FromChangeDTOForDraft(draft: MetadataSchema, dto: MetadataSchemaChangeDTO, previousVersion: Option<MetadataSchema>,
                                 extendsSchemas: seq<MetadataSchema>, children: seq<MetadataSchemaChild>): (r: MetadataSchema)
    ensures IsDraft(r) && r.versionString.None? && r.previousVersion == previousVersion
    ensures r.id == draft.id && r.uuid == draft.uuid
    ensures r == FromChangeDTO(dto, draft.uuid, extendsSchemas, children).(id := draft.id, previousVersion := previousVersion)
  {
    draft.(version := None, versionString := None, name := dto.name, shapeDefinition := dto.shapeDefinition,
           urlPrefix := dto.urlPrefix, description := dto.description, abstractSchema := dto.abstractSchema,
           extendsSchemas := extendsSchemas, children := children, previousVersion := previousVersion,
           links := FromLinkDTOs(dto.externalLinks))
  }

  /**
   * fromPublishDTO: the draft with the client's version and description; a version string that
   * does not parse fails as the SemanticVersion constructor does.
   */
  function FromPublishDTO(draft: MetadataSchema, dto: MetadataSchemaPublishDTO): (r: Result<MetadataSchema, ParseError>)
    ensures r.Success? <==> Parse(dto.version).Success?
    ensures r.Failure? ==> r.error == Parse(dto.version).error
    ensures r.Success? ==>
              r.value == draft.(version := Some(Parse(dto.version).value), versionString := Some(dto.version), description := dto.description)
  {
    match Parse(dto.version)
    case Failure(e) => Failure(e)
    case Success(v) => Success(draft.(version := Some(v), versionString := Some(dto.version), description := dto.description))
  }

  /**
   * A published schema is no draft, and when the client's version string is canonical (three
   * plain decimal numbers) its stored version string is exactly the printed version.
   */
  lemma PublishedVersionString(draft: MetadataSchema, dto: MetadataSchemaPublishDTO)
    requires Canonical(dto.version)
    ensures FromPublishDTO(draft, dto).Success?
    ensures !IsDraft(FromPublishDTO(draft, dto).value)
    ensures FromPublishDTO(draft, dto).value.versionString == Some(ToString(FromPublishDTO(draft, dto).value.version.value))
  {
    CanonicalToStringParse(dto.version);
  }

  /** toDraft: a new draft with the content of the given version and no previous version. */
  function ToDraft(previousVersion: MetadataSchema): (r: MetadataSchema)
    ensures IsDraft(r) && r.versionString.None? && r.previousVersion.None? && r.id.None?
    ensures r.uuid == previousVersion.uuid && r.name == previousVersion.name && r.description == previousVersion.description
    ensures r.shapeDefinition == previousVersion.shapeDefinition && r.urlPrefix == previousVersion.urlPrefix
    ensures r.abstractSchema == previousVersion.abstractSchema && r.extendsSchemas == previousVersion.extendsSchemas
    ensures r.children == previousVersion.children && r.links == previousVersion.links
  {
    MetadataSchema(None, previousVersion.uuid, None, None, previousVersion.urlPrefix, previousVersion.name,
                   previousVersion.shapeDefinition, previousVersion.description, previousVersion.abstractSchema, None,
                   previousVersion.extendsSchemas, previousVersion.children, previousVersion.links)
  }

  /** The draft view of a version is the detail view of the draft toDraft makes from it. */
  lemma DraftViewIsViewOfDraft(s: MetadataSchema)
    ensures ToDraftDetailDTO(s) == ToDetailDTO(ToDraft(s))
  {
  }
}
