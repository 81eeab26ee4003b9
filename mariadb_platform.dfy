/**
 * The MariaDB database platform: the capabilities it reports and the SQL
 * text it builds for reading a sequence object and for dropping a schema.
 */
module MariaDB {
  import opened Wrappers

  /** A query that reads one value, by its SQL text. */
  datatype ValueReadQuery = ValueReadQuery(sqlString: string)

  const NEXTVAL_OPEN := "select nextval("
  const NEXTVAL_CLOSE := ")"
  const DROP_SCHEMA := "DROP SCHEMA IF EXISTS "

  /** The sequence name a "select nextval(...)" query reads, if the text has that form. */
  function SequenceNameOf(sql: string): Option<string>
  {
    if |sql| >= |NEXTVAL_OPEN| + |NEXTVAL_CLOSE|
       && sql[..|NEXTVAL_OPEN|] == NEXTVAL_OPEN
       && sql[|sql| - |NEXTVAL_CLOSE|..] == NEXTVAL_CLOSE
    then Some(sql[|NEXTVAL_OPEN|..|sql| - |NEXTVAL_CLOSE|])
    else None
  }

  /** The schema a "DROP SCHEMA IF EXISTS ..." statement drops, if the text has that form. */
  function DroppedSchemaOf(sql: string): Option<string>
  {
    if |sql| >= |DROP_SCHEMA| && sql[..|DROP_SCHEMA|] == DROP_SCHEMA then Some(sql[|DROP_SCHEMA|..]) else None
  }

  class MariaDBPlatform {
    var driverSupportsNationalCharacterVarying: bool

    constructor(driverSupportsNationalCharacterVarying: bool)
      ensures this.driverSupportsNationalCharacterVarying == driverSupportsNationalCharacterVarying
    {
      this.driverSupportsNationalCharacterVarying := driverSupportsNationalCharacterVarying;
    }

    /** MariaDB drivers always support national character varying; the connection is not consulted. */
    method InitializeConnectionData()
      modifies this`driverSupportsNationalCharacterVarying
      ensures driverSupportsNationalCharacterVarying
    {
      driverSupportsNationalCharacterVarying := true;
    }

    predicate IsMariaDB() { true }

    predicate IsMySQL() { false }

    predicate IsFractionalTimeSupported() { true }

    predicate SupportsSequenceObjects() { true }

    predicate IsAlterSequenceObjectSupported() { true }

    /**
     * The query reading the next value of a sequence object: it reads the
     * named sequence, whatever the requested size.
     */
    function BuildSelectQueryForSequenceObject(qualifiedSeqName: string, size: Option<int>): (q: Option<ValueReadQuery>)
      ensures q.Some?
      ensures SequenceNameOf(q.value.sqlString) == Some(qualifiedSeqName)
    {
      var sql := NEXTVAL_OPEN + qualifiedSeqName + NEXTVAL_CLOSE;
      assert sql[..|NEXTVAL_OPEN|] == NEXTVAL_OPEN;
      assert sql[|NEXTVAL_OPEN|..|sql| - |NEXTVAL_CLOSE|] == qualifiedSeqName;
      Some(ValueReadQuery(sql))
    }

    /** The statement dropping a schema, if it exists; it names exactly that schema. */
    function GetDropDatabaseSchemaString(schema: string): (r: string)
      ensures DroppedSchemaOf(r) == Some(schema)
    {
      var sql := DROP_SCHEMA + schema;
      assert sql[..|DROP_SCHEMA|] == DROP_SCHEMA;
      sql
    }
  }

  /** The platform is MariaDB and not MySQL, though it inherits MySQL's behaviour. */
  lemma PlatformIdentity(platform: MariaDBPlatform)
    ensures platform.IsMariaDB() && !platform.IsMySQL()
    ensures platform.IsMariaDB() != platform.IsMySQL()
  {
  }

  /** Fractional time, sequence objects and altering a sequence's increment are all supported. */
  lemma PlatformCapabilities(platform: MariaDBPlatform)
    ensures platform.IsFractionalTimeSupported()
    ensures platform.SupportsSequenceObjects() && platform.IsAlterSequenceObjectSupported()
  {
  }

  /** A platform that supports sequence objects builds a query for every sequence, and the size never matters. */
  lemma SequenceQueryContract(platform: MariaDBPlatform, qualifiedSeqName: string, size: Option<int>, otherSize: Option<int>)
    ensures platform.SupportsSequenceObjects() ==> platform.BuildSelectQueryForSequenceObject(qualifiedSeqName, size).Some?
    ensures platform.BuildSelectQueryForSequenceObject(qualifiedSeqName, size)
              == platform.BuildSelectQueryForSequenceObject(qualifiedSeqName, otherSize)
  {
  }

  /** Distinct sequences are read by distinct queries, and distinct schemas dropped by distinct statements. */
  lemma SqlTextsAreInjective(platform: MariaDBPlatform, a: string, b: string, size: Option<int>)
    requires a != b
    ensures platform.BuildSelectQueryForSequenceObject(a, size) != platform.BuildSelectQueryForSequenceObject(b, size)
    ensures platform.GetDropDatabaseSchemaString(a) != platform.GetDropDatabaseSchemaString(b)
  {
    var qa := platform.BuildSelectQueryForSequenceObject(a, size);
    var qb := platform.BuildSelectQueryForSequenceObject(b, size);
    assert SequenceNameOf(qa.value.sqlString) != SequenceNameOf(qb.value.sqlString);
    assert DroppedSchemaOf(platform.GetDropDatabaseSchemaString(a)) != DroppedSchemaOf(platform.GetDropDatabaseSchemaString(b));
  }
}
