/** Name resolution: what the CREATE VIEW executor asks of the schema it
    runs in. The lookups themselves belong to the schema registry and are
    uninterpreted here: each is a function supplied by the caller. */
module Names {
  import opened Wrappers

  /** A schema, i.e. a namespace holding named relations. */
  type SchemaId(==)

  /** An existing relation (a view, a table, ...) found under some name. */
  type ObjectRef(==)

  /** An object name, optionally qualified by an explicit schema name. */
  datatype QualifiedName = QualifiedName(name: string, schema: Option<string>)

  /** The structured error the engine throws: a message and an optional
      stable SQLSTATE code. */
  datatype QueryError = QueryError(message: string, code: Option<string>)

  /** The schema-side collaborators of the executor.
      - getThisOrSiblingFor: the target schema of a name, given the schema
        the statement runs in; it may fail (an unknown explicit schema, say);
      - getObject: the relation already registered under a name, if any
        (called with nullIfNotFound, so it never fails);
      - asView: the conversion applied to that lookup's result; whether it
        rejects relations that are not views is not modelled, so it may
        return anything, including an error. */
  datatype Resolver = Resolver(
    getThisOrSiblingFor: (SchemaId, QualifiedName) -> Result<SchemaId, QueryError>,
    getObject: (SchemaId, QualifiedName) -> Option<ObjectRef>,
    asView: Option<ObjectRef> -> Result<Option<ObjectRef>, QueryError>)
}
