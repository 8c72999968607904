/**
 * MetadataSchema: one version of a metadata schema, or its draft. A draft is the record
 * without a version; the Java null of the id, version, version string and previous version
 * is None here. Referenced schemas (previous version, parents, child schemas) are held as the
 * values the store gave back.
 */
module MetadataSchemas {
  import opened Wrappers
  import opened SemanticVersions

  /** The name that marks the catalog schema. */
  const CATALOG_PREFIX := "catalog"

  datatype MetadataSchemaLink = MetadataSchemaLink(title: string, propertyUri: string)

  datatype MetadataSchemaChildMetadata = MetadataSchemaChildMetadata(title: string, propertyUri: string)

  datatype MetadataSchema = MetadataSchema(
    id: Option<nat>,
    uuid: string,
    versionString: Option<string>,
    version: Option<SemanticVersion>,
    urlPrefix: string,
    name: string,
    shapeDefinition: string,
    description: string,
    abstractSchema: bool,
    previousVersion: Option<MetadataSchema>,
    extendsSchemas: seq<MetadataSchema>,
    children: seq<MetadataSchemaChild>,
    links: seq<MetadataSchemaLink>)

  datatype MetadataSchemaChild = MetadataSchemaChild(
    childSchema: MetadataSchema,
    relationUri: string,
    title: string,
    tagsUri: string,
    metadata: seq<MetadataSchemaChildMetadata>)

  /** isRoot: the schema is mounted at the empty URL prefix. */
  predicate IsRoot(s: MetadataSchema) {
    s.urlPrefix == ""
  }

  /** isCatalog: the schema is named "catalog". */
  predicate IsCatalog(s: MetadataSchema) {
    s.name == CATALOG_PREFIX
  }

  /** isDraft: the schema has no version. */
  predicate IsDraft(s: MetadataSchema) {
    s.version.None?
  }

  /**
   * A schema made by the no-argument constructor and then given its scalar fields: no
   * previous version, no parents, children or links until they are set.
   */
  function WithDefaults(uuid: string, versionString: Option<string>, version: Option<SemanticVersion>,
                        urlPrefix: string, name: string, shapeDefinition: string, description: string,
                        abstractSchema: bool): (s: MetadataSchema)
    ensures s.previousVersion.None? && s.extendsSchemas == [] && s.children == [] && s.links == []
    ensures s.id.None? && s.uuid == uuid && s.version == version && s.versionString == versionString
    ensures IsDraft(s) <==> version.None?
    ensures IsRoot(s) <==> urlPrefix == ""
    ensures IsCatalog(s) <==> name == "catalog"
  {
    MetadataSchema(None, uuid, versionString, version, urlPrefix, name, shapeDefinition, description,
                   abstractSchema, None, [], [], [])
  }
}
