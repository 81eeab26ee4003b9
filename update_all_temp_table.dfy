/**
 * The update-all statement that goes through a temporary table: it keeps the
 * assigned fields, reports the fields it uses, and asks the database platform
 * to write the update of the original table from the temporary one.
 */
module UpdateAllTempTable {

  /** A column, named within its table. */
  datatype DatabaseField = DatabaseField(name: string, tableName: string)

  /** A table, by qualified name. */
  datatype DatabaseTable = DatabaseTable(qualifiedName: string)

  /** The fields a statement uses: its primary-key fields followed by its assigned fields. */
  function UsedFields(primaryKeyFields: seq<DatabaseField>, assignedFields: seq<DatabaseField>): (r: seq<DatabaseField>)
    ensures |r| == |primaryKeyFields| + |assignedFields|
    ensures r[..|primaryKeyFields|] == primaryKeyFields
    ensures r[|primaryKeyFields|..] == assignedFields
  {
    primaryKeyFields + assignedFields
  }

  /** Order aside, the used fields are the two collections together, duplicates kept. */
  lemma UsedFieldsKeepDuplicates(primaryKeyFields: seq<DatabaseField>, assignedFields: seq<DatabaseField>)
    ensures multiset(UsedFields(primaryKeyFields, assignedFields)) == multiset(primaryKeyFields) + multiset(assignedFields)
    ensures forall f :: f in UsedFields(primaryKeyFields, assignedFields) <==> f in primaryKeyFields || f in assignedFields
  {
    var r := UsedFields(primaryKeyFields, assignedFields);
    assert r == r[..|primaryKeyFields|] + r[|primaryKeyFields|..];
  }

  /** A growable list of fields (a java.util.Vector), updated in place. */
  class FieldVector {
    var elements: seq<DatabaseField>

    /** A new vector holding a copy of `source`. */
    constructor Copy(source: seq<DatabaseField>)
      ensures elements == source
    {
      elements := source;
    }

    /** Appends every element of `more`, in order. */
    method AddAll(more: seq<DatabaseField>)
      modifies this
      ensures elements == old(elements) + more
    {
      elements := elements + more;
    }
  }

  /** One request to write the update of the original table from the temporary one. */
  datatype UpdateOriginalCall = UpdateOriginalCall(table: DatabaseTable, primaryKeyFields: seq<DatabaseField>,
                                                   assignedFields: seq<DatabaseField>)

  /**
   * The database platform, as far as this statement drives it: a log of the
   * requests it received. The writer is foreign code, so it may change the
   * vectors it is handed; its log keeps their contents as they were passed.
   */
  class PlatformWriter {
    var calls: seq<UpdateOriginalCall>

    constructor()
      ensures calls == []
    {
      calls := [];
    }

    /** Records one request; the SQL text the platform writes is not part of this model. */
    method WriteUpdateOriginalFromTempTableSql(table: DatabaseTable, primaryKeyFields: FieldVector, assignedFields: FieldVector)
      modifies this, primaryKeyFields, assignedFields
      ensures calls == old(calls) + [UpdateOriginalCall(table, old(primaryKeyFields.elements), old(assignedFields.elements))]
    {
      calls := calls + [UpdateOriginalCall(table, primaryKeyFields.elements, assignedFields.elements)];
    }
  }

  /** The session, reduced to the platform it hands out. */
  class Session {
    const platform: PlatformWriter

    constructor(platform: PlatformWriter)
      ensures this.platform == platform
    {
      this.platform := platform;
    }
  }

  class SQLUpdateAllStatementForTempTable {
    var table: DatabaseTable
    var primaryKeyFields: FieldVector
    var assignedFields: FieldVector

    constructor(table: DatabaseTable, primaryKeyFields: FieldVector, assignedFields: FieldVector)
      ensures this.table == table && this.primaryKeyFields == primaryKeyFields && this.assignedFields == assignedFields
    {
      this.table := table;
      this.primaryKeyFields := primaryKeyFields;
      this.assignedFields := assignedFields;
    }

    function GetAssignedFields(): FieldVector
      reads this
    {
      assignedFields
    }

    /** Keeps the given collection itself (not a copy): a later read returns that same collection. */
    method SetAssignedFields(assignedFields: FieldVector)
      modifies this`assignedFields
      ensures GetAssignedFields() == assignedFields
      ensures table == old(table) && primaryKeyFields == old(primaryKeyFields)
    {
      this.assignedFields := assignedFields;
    }

    /**
     * A new vector holding the primary-key fields followed by the assigned
     * fields; neither collection is changed.
     */
    method GetUsedFields() returns (usedFields: FieldVector)
      ensures fresh(usedFields)
      ensures usedFields.elements == UsedFields(primaryKeyFields.elements, assignedFields.elements)
      ensures primaryKeyFields.elements == old(primaryKeyFields.elements)
      ensures assignedFields.elements == old(assignedFields.elements)
    {
      usedFields := new FieldVector.Copy(primaryKeyFields.elements);
      usedFields.AddAll(GetAssignedFields().elements);
    }

    /**
     * Exactly one request to the session's platform, with this statement's
     * table and the primary-key and assigned fields, in that order. The
     * platform receives copies, so whatever it does to the vectors it is
     * handed, the statement's own collections are unchanged.
     */
    method WriteUpdateOriginalTable(session: Session)
      modifies session.platform
      ensures session.platform.calls
                == old(session.platform.calls) + [UpdateOriginalCall(table, primaryKeyFields.elements, assignedFields.elements)]
      ensures primaryKeyFields.elements == old(primaryKeyFields.elements)
      ensures assignedFields.elements == old(assignedFields.elements)
    {
      var primaryKeyCopy := new FieldVector.Copy(primaryKeyFields.elements);
      var assignedCopy := new FieldVector.Copy(GetAssignedFields().elements);
      session.platform.WriteUpdateOriginalFromTempTableSql(table, primaryKeyCopy, assignedCopy);
    }
  }
}
