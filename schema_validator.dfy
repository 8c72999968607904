/**
 * MetadataSchemaValidator: the four checks a schema must pass, run in the order URL prefix,
 * version, parents, children; the first failure is the one reported. A check that throws in
 * the source returns its error here.
 */
module MetadataSchemaValidator {
  import opened Wrappers
  import opened SemanticVersions
  import opened MetadataSchemas

  datatype ValidationError =
    | UrlPrefixInUse(urlPrefix: string, uuid: string)
    | DraftOnDraft(uuid: string)
    | NotSuccessor(version: SemanticVersion, previous: SemanticVersion)
    | AbstractExtendsConcrete
    | AbstractChild

  /** The stored schemas with a given URL prefix, in store order (findByUrlPrefix). */
  function FindByUrlPrefix(stored: seq<MetadataSchema>, urlPrefix: string): (r: seq<MetadataSchema>)
    ensures forall s :: s in r <==> s in stored && s.urlPrefix == urlPrefix
  {
    if stored == [] then []
    else (if stored[0].urlPrefix == urlPrefix then [stored[0]] else []) + FindByUrlPrefix(stored[1..], urlPrefix)
  }

  /** The first schema of the list that belongs to another uuid, reported as a prefix conflict. */
  function FirstConflict(candidates: seq<MetadataSchema>, uuid: string): (r: Option<ValidationError>)
    ensures r.None? <==> forall s :: s in candidates ==> s.uuid == uuid
    ensures r.Some? ==> exists s :: s in candidates && s.uuid != uuid && r.value == UrlPrefixInUse(s.urlPrefix, s.uuid)
  {
    if candidates == [] then None
    else if candidates[0].uuid != uuid then Some(UrlPrefixInUse(candidates[0].urlPrefix, candidates[0].uuid))
    else
      var r := FirstConflict(candidates[1..], uuid);
      assert forall s :: s in candidates <==> s == candidates[0] || s in candidates[1..];
      r
  }

  /** validateUrlPrefix: no stored schema of another uuid uses the same URL prefix. */
  function ValidateUrlPrefix(schema: MetadataSchema, stored: seq<MetadataSchema>): (r: Option<ValidationError>)
    ensures r.None? <==> forall s :: s in stored && s.urlPrefix == schema.urlPrefix ==> s.uuid == schema.uuid
    ensures r.Some? ==> exists s :: s in stored && s.urlPrefix == schema.urlPrefix && s.uuid != schema.uuid &&
                                    r.value == UrlPrefixInUse(schema.urlPrefix, s.uuid)
  {
    FirstConflict(FindByUrlPrefix(stored, schema.urlPrefix), schema.uuid)
  }

  /**
   * validateVersion: a previous version must be published, and a published schema must be a
   * successor of it. isSuccessor(v, p) says that v may follow p.
   */
  function ValidateVersion(schema: MetadataSchema, isSuccessor: (SemanticVersion, SemanticVersion) -> bool): (r: Option<ValidationError>)
    ensures schema.previousVersion.None? ==> r.None?
    ensures schema.previousVersion.Some? && IsDraft(schema.previousVersion.value) ==> r == Some(DraftOnDraft(schema.uuid))
    ensures r.None? <==>
              || schema.previousVersion.None?
              || (&& !IsDraft(schema.previousVersion.value)
                  && (IsDraft(schema) || isSuccessor(schema.version.value, schema.previousVersion.value.version.value)))
  {
    match schema.previousVersion
    case None => None
    case Some(prev) =>
      if prev.version.None? then Some(DraftOnDraft(schema.uuid))
      else if schema.version.Some? && !isSuccessor(schema.version.value, prev.version.value) then
        Some(NotSuccessor(schema.version.value, prev.version.value))
      else None
  }

  /** The first parent that is not abstract fails the check. */
  function FirstConcrete(parents: seq<MetadataSchema>): (r: Option<ValidationError>)
    ensures r.None? <==> forall p :: p in parents ==> p.abstractSchema
    ensures r.Some? ==> r.value == AbstractExtendsConcrete
  {
    if parents == [] then None
    else if !parents[0].abstractSchema then Some(AbstractExtendsConcrete)
    else
      assert forall p :: p in parents <==> p == parents[0] || p in parents[1..];
      FirstConcrete(parents[1..])
  }

  /** validateExtends: an abstract schema extends only abstract schemas; a concrete one anything. */
  function ValidateExtends(schema: MetadataSchema): (r: Option<ValidationError>)
    ensures r.None? <==> !schema.abstractSchema || forall p :: p in schema.extendsSchemas ==> p.abstractSchema
    ensures r.Some? ==> r.value == AbstractExtendsConcrete
  {
    if schema.abstractSchema then FirstConcrete(schema.extendsSchemas) else None
  }

  /** The first child whose schema is abstract fails the check. */
  function FirstAbstractChild(children: seq<MetadataSchemaChild>): (r: Option<ValidationError>)
    ensures r.None? <==> forall c :: c in children ==> !c.childSchema.abstractSchema
    ensures r.Some? ==> r.value == AbstractChild
  {
    if children == [] then None
    else if children[0].childSchema.abstractSchema then Some(AbstractChild)
    else
      assert forall c :: c in children <==> c == children[0] || c in children[1..];
      FirstAbstractChild(children[1..])
  }

  /** validateChildren: no child schema is abstract. */
  function ValidateChildren(schema: MetadataSchema): (r: Option<ValidationError>)
    ensures r.None? <==> forall c :: c in schema.children ==> !c.childSchema.abstractSchema
    ensures r.Some? ==> r.value == AbstractChild
  {
    FirstAbstractChild(schema.children)
  }

  /** validate: the four checks in order; the first failure is the result. */
  function Validate(schema: MetadataSchema, stored: seq<MetadataSchema>, isSuccessor: (SemanticVersion, SemanticVersion) -> bool): (r: Option<ValidationError>)
    ensures r.None? <==>
              && ValidateUrlPrefix(schema, stored).None?
              && ValidateVersion(schema, isSuccessor).None?
              && ValidateExtends(schema).None?
              && ValidateChildren(schema).None?
    ensures ValidateUrlPrefix(schema, stored).Some? ==> r == ValidateUrlPrefix(schema, stored)
    ensures ValidateUrlPrefix(schema, stored).None? && ValidateVersion(schema, isSuccessor).Some? ==>
              r == ValidateVersion(schema, isSuccessor)
    ensures (ValidateUrlPrefix(schema, stored).None? && ValidateVersion(schema, isSuccessor).None? &&
             ValidateExtends(schema).Some?) ==> r == ValidateExtends(schema)
    ensures (ValidateUrlPrefix(schema, stored).None? && ValidateVersion(schema, isSuccessor).None? &&
             ValidateExtends(schema).None?) ==> r == ValidateChildren(schema)
  {
    var prefix := ValidateUrlPrefix(schema, stored);
    if prefix.Some? then prefix
    else
      var version := ValidateVersion(schema, isSuccessor);
      if version.Some? then version
      else
        var parents := ValidateExtends(schema);
        if parents.Some? then parents else ValidateChildren(schema)
  }
}
