/** The definition builder: query plans, the optional column re-projection
    applied when CREATE VIEW lists column names, and the unregistered view
    definition. */
module Definitions {
  import opened Wrappers
  import opened Names

  /** The parsed query body of the statement; compiling it is the query
      compiler's business and is not modelled. */
  type Query(==)

  /** One item of a projection list: either a bare reference to a column of
      the source plan (kept under its own id) or a reference to a column
      together with an alias. */
  datatype SelectedColumn = Keep(id: string) | Rename(ref: string, alias: string)

  /** A query plan: a compiled query with its ordered output column ids, or a
      projection over another plan. Plans are values: projecting builds a
      new plan and leaves its source as it was. */
  datatype Plan =
    | Compiled(query: Query, columns: seq<string>)
    | Selection(source: Plan, items: seq<SelectedColumn>)

  /** The view definition that CREATE VIEW registers. */
  datatype ViewDef = ViewDef(schema: SchemaId, name: string, plan: Plan)

  /** The column of the source plan that an item reads. */
  function Source(c: SelectedColumn): string {
    match c
    case Keep(id) => id
    case Rename(ref, _) => ref
  }

  /** The name under which an item appears in the projection's output. */
  function OutputName(c: SelectedColumn): string {
    match c
    case Keep(id) => id
    case Rename(_, alias) => alias
  }

  /** The output column ids of a plan, in order. */
  function Columns(p: Plan): seq<string> {
    match p
    case Compiled(_, columns) => columns
    case Selection(_, items) => seq(|items|, i requires 0 <= i < |items| => OutputName(items[i]))
  }

  /** `plan.select(items)`: a new plan projecting `items` out of `p`. */
  function Select(p: Plan, items: seq<SelectedColumn>): Plan {
    Selection(p, items)
  }

  /** The alias given for position i, if the column-name list has an entry
      there whose name is present and non-empty (JavaScript truthiness of
      `columnNames?.[i]?.name`). */
  function AliasAt(aliases: seq<Option<string>>, i: nat): Option<string> {
    if i < |aliases| && aliases[i].Some? && aliases[i].value != "" then aliases[i] else None
  }

  /** The projection list CREATE VIEW builds out of the query's columns and
      the statement's column-name list: one item per column, in order; a
      column with an alias is referenced and renamed, any other column is
      kept under its own id. */
  function Reproject(cols: seq<string>, aliases: seq<Option<string>>): (r: seq<SelectedColumn>)
    ensures |r| == |cols|
    ensures forall i :: 0 <= i < |cols| ==> Source(r[i]) == cols[i]
    ensures forall i :: 0 <= i < |cols| ==>
      OutputName(r[i]) == (if i < |aliases| && aliases[i].Some? && aliases[i].value != "" then aliases[i].value else cols[i])
  {
    seq(|cols|, i requires 0 <= i < |cols| =>
      match AliasAt(aliases, i)
      case Some(alias) => Rename(cols[i], alias)
      case None => Keep(cols[i]))
  }

  /** The output columns of the re-projected plan: exactly one per column of
      the original plan; position i carries the alias given for it, or the
      original id when there is none (in particular at every position at or
      beyond the end of the list). */
  lemma ReprojectedColumns(p: Plan, aliases: seq<Option<string>>)
    ensures var r := Columns(Select(p, Reproject(Columns(p), aliases)));
      && |r| == |Columns(p)|
      && (forall i :: 0 <= i < |r| && i < |aliases| && aliases[i].Some? && aliases[i].value != "" ==> r[i] == aliases[i].value)
      && (forall i :: |aliases| <= i < |r| ==> r[i] == Columns(p)[i])
      && (forall i :: 0 <= i < |r| && i < |aliases| && (aliases[i].None? || aliases[i].value == "") ==> r[i] == Columns(p)[i])
  {
  }

  /** Re-projection renames nothing exactly when every alias it is given is
      either absent, empty, or equal to the column's own id. */
  lemma ReprojectKeepsNames(p: Plan, aliases: seq<Option<string>>)
    ensures Columns(Select(p, Reproject(Columns(p), aliases))) == Columns(p)
        <==> forall i :: 0 <= i < |Columns(p)| && i < |aliases| ==> AliasAt(aliases, i).None? || AliasAt(aliases, i).value == Columns(p)[i]
  {
  }
}
