# EclipseLink binary-data XML node, update-all temp-table statement, MariaDB platform

This project models three pieces of EclipseLink in Dafny and proves what they promise.

1. **The XML binary-data mapping node** (`XMLBinaryDataMappingNodeValue`). This is the tree-walk node that writes a binary attribute of a domain object into a marshal record, and reads it back from parser events.
   - Writing follows a fixed order. A read-only mapping is skipped. Otherwise the attribute value is read and passed through the optional converter, and the grouping elements are written. A null value stops here. Otherwise the owning start tag is written, then exactly one of three encodings, then the closing tags. The encodings are:
     - a swaRef content id as text (section 4.4 of the WS-I Attachments Profile 1.0);
     - an `xop:Include` element whose `href` is the content id (section 3 of W3C XML-binary Optimized Packaging);
     - inline `xs:base64Binary` text (section 4 of RFC 4648).
   - Reading is `startElement` / `endElement` acting on an unmarshal record and the object being built:
     - an attribute-borne value is assigned on start;
     - XOP content is handed to an attachment handler on start;
     - any other content is taken from the text buffer on end.
2. **`SQLUpdateAllStatementForTempTable`**. It keeps the assigned fields, reports the fields it uses (the primary-key fields followed by the assigned fields), and asks the database platform to write the update of the original table from the temporary table.
3. **`MariaDBPlatform`**. It covers the capability predicates, the SQL text for reading a sequence object and for dropping a schema, and the connection-time flag update.

Layout:
- `wrappers.dfy`: `Option` and `Result`.
- `oxm_types.dfy` (module `OxmTypes`) holds the value types:
  - values and classifications, XPath fragments and the mapping;
  - marshal events and attachments;
  - `Conversions`, the base64, schema-text and binary-helper collaborators, which are parameters of the model.
- `oxm_records.dfy` (module `OxmRecords`) holds the collaborators the node changes, as classes:
  - `NamespaceResolver`, `AttachmentMarshaller`, `MarshalRecord` (an ordered event log);
  - `DomainObject` (the attribute plus a ghost log of every assignment);
  - `UnmarshalRecord` (text buffer, null-capable set, content handler).
- `binary_data_node.dfy` (module `BinaryDataNode`): the specification functions `MarshalSpec`, `StartActionOf` and `EndActionOf`, and the class `BinaryDataMappingNodeValue`, whose methods are proved to do exactly what those functions say.
- `binary_data_node_properties.dfy` (module `BinaryDataNodeProperties`): the properties of those functions.
- `update_all_temp_table.dfy` (module `UpdateAllTempTable`) and `mariadb_platform.dfy` (module `MariaDB`).

## Model

| member | source | states |
|---|---|---|
| OxmRecords.PrefixFor | foundation/eclipselink.core/src/org/eclipse/persistence/internal/oxm/XMLBinaryDataMappingNodeValue.java:114-117 | The prefix a resolver answers for a namespace URI is one it declares for that URI. There is none exactly when no declaration has that URI. |
| BinaryDataNode.IsOwningNode | foundation/eclipselink.core/src/org/eclipse/persistence/internal/oxm/XMLBinaryDataMappingNodeValue.java:44-46 | On the path that starts at a fragment, the fragment is owned exactly when it is the only step or the step after it is an attribute. |
| BinaryDataNodeProperties.OwningStepsOfPath | foundation/eclipselink.core/src/org/eclipse/persistence/internal/oxm/XMLBinaryDataMappingNodeValue.java:44-46 | Along a path, a step owns its node exactly when it is the last step or the next step is an attribute. |
| BinaryDataNode.DataHandlerForObjectValue | foundation/eclipselink.core/src/org/eclipse/persistence/internal/oxm/XMLBinaryDataMappingNodeValue.java:233-238 | For any classification other than DataHandler the answer is null. For DataHandler a handler is returned as itself and null stays null. Any other object fails the cast. |
| BinaryDataNode.ValueToWrite | foundation/eclipselink.core/src/org/eclipse/persistence/internal/oxm/XMLBinaryDataMappingNodeValue.java:40-42 | For xs:base64Binary the text written for some bytes decodes back to them whenever the base64 codec round-trips them. |
| BinaryDataNodeProperties.ValueToWriteRoundTrip | foundation/eclipselink.core/src/org/eclipse/persistence/internal/oxm/XMLBinaryDataMappingNodeValue.java:40-42 | The text written for xs:base64Binary decodes back to the same bytes, given a base64 codec that round-trips. |
| BinaryDataNode.EncodingFor | foundation/eclipselink.core/src/org/eclipse/persistence/internal/oxm/XMLBinaryDataMappingNodeValue.java:77-91 | Only the inline encoding is chosen without an attachment marshaller, and XOP only with an XOP-package marshaller. |
| BinaryDataNode.XopNamespaceFor | foundation/eclipselink.core/src/org/eclipse/persistence/internal/oxm/XMLBinaryDataMappingNodeValue.java:106-124 | A declaration is added exactly when the resolver is null or has no prefix for the XOP URI. It then uses the default `xop` prefix on a scope binding only that prefix. Otherwise the caller's scope and its own XOP prefix are kept. |
| BinaryDataNode.BinaryDataMappingNodeValue.constructor | foundation/eclipselink.core/src/org/eclipse/persistence/internal/oxm/XMLBinaryDataMappingNodeValue.java:48-50 | The node holds the mapping it was built for. |
| BinaryDataNode.BinaryDataMappingNodeValue.Marshal | foundation/eclipselink.core/src/org/eclipse/persistence/internal/oxm/XMLBinaryDataMappingNodeValue.java:52-54 | Marshals the value read from the object itself. The result, the events appended and the attachments registered are those of `MarshalSpec`. The caller's resolver is unchanged. |
| BinaryDataNode.BinaryDataMappingNodeValue.MarshalInContext | foundation/eclipselink.core/src/org/eclipse/persistence/internal/oxm/XMLBinaryDataMappingNodeValue.java:56-149 | Same as `Marshal`, for the value a marshal context hands over. |
| BinaryDataNode.BinaryDataMappingNodeValue.WriteContent | foundation/eclipselink.core/src/org/eclipse/persistence/internal/oxm/XMLBinaryDataMappingNodeValue.java:77-148 | After the owning start tag, it writes exactly one encoding and then the closing tag, as `ContentSpec` says. On failure it appends nothing and registers nothing. |
| BinaryDataNode.BinaryDataMappingNodeValue.WriteSwaRef | foundation/eclipselink.core/src/org/eclipse/persistence/internal/oxm/XMLBinaryDataMappingNodeValue.java:77-89 | It registers one swaRef attachment (the handler, or the helper's bytes) and writes the content id it received as text. A value that is not a handler for a DataHandler mapping is a cast failure. |
| BinaryDataNode.BinaryDataMappingNodeValue.WriteXopInclude | foundation/eclipselink.core/src/org/eclipse/persistence/internal/oxm/XMLBinaryDataMappingNodeValue.java:91-133 | It registers one MTOM attachment and writes the Include element for its content id. It returns the resolver the owning element is closed with, whose scope is the XOP scope. |
| BinaryDataNode.BinaryDataMappingNodeValue.AddXopAttachment | foundation/eclipselink.core/src/org/eclipse/persistence/internal/oxm/XMLBinaryDataMappingNodeValue.java:92-104 | It registers exactly the attachment `XopAttachment` describes and answers the content id handed out for it. |
| BinaryDataNode.BinaryDataMappingNodeValue.WriteInclude | foundation/eclipselink.core/src/org/eclipse/persistence/internal/oxm/XMLBinaryDataMappingNodeValue.java:106-133 | It writes the events `<xop:Include href=cid [xmlns:xop=...]/>` and the owning end tag. When a declaration is needed it goes on a new resolver, and the caller's resolver is never changed. |
| BinaryDataNode.BinaryDataMappingNodeValue.WriteInline | foundation/eclipselink.core/src/org/eclipse/persistence/internal/oxm/XMLBinaryDataMappingNodeValue.java:135-145 | It writes the schema text of the bytes (the value's own, or the helper's) as one text event. |
| BinaryDataNodeProperties.MarshalReadOnly | foundation/eclipselink.core/src/org/eclipse/persistence/internal/oxm/XMLBinaryDataMappingNodeValue.java:57-59 | A read-only mapping answers false, writes nothing and registers nothing. |
| BinaryDataNodeProperties.MarshalNullValue | foundation/eclipselink.core/src/org/eclipse/persistence/internal/oxm/XMLBinaryDataMappingNodeValue.java:70-74 | A value that is null after conversion gives true with only the grouping elements opened and closed, and no attachment. |
| BinaryDataNodeProperties.EncodingPriority | foundation/eclipselink.core/src/org/eclipse/persistence/internal/oxm/XMLBinaryDataMappingNodeValue.java:77-146 | Each encoding holds if and only if its condition does. swaRef needs an attachment marshaller. XOP needs no swaRef, an XOP package and inlining not forced. Inline covers everything else. |
| BinaryDataNodeProperties.MarshalSwaRefTrace | foundation/eclipselink.core/src/org/eclipse/persistence/internal/oxm/XMLBinaryDataMappingNodeValue.java:75-89 | The swaRef trace is grouping, start, the content id as text, then end. The answer is true and the swaRef attachment is registered. |
| BinaryDataNodeProperties.MarshalXopTrace | foundation/eclipselink.core/src/org/eclipse/persistence/internal/oxm/XMLBinaryDataMappingNodeValue.java:125-133 | The XOP trace is grouping, start, start Include, href = content id, the optional `xmlns:xop` attribute, close, end, end. The answer is true and the MTOM attachment is registered. |
| BinaryDataNodeProperties.MarshalInlineTrace | foundation/eclipselink.core/src/org/eclipse/persistence/internal/oxm/XMLBinaryDataMappingNodeValue.java:135-148 | The inline trace is grouping, start, the schema text, then end. The answer is true and nothing is registered. |
| BinaryDataNodeProperties.MarshalBalanced | foundation/eclipselink.core/src/org/eclipse/persistence/internal/oxm/XMLBinaryDataMappingNodeValue.java:70-148 | On success every end tag closes an open start tag and all start tags are closed, in every branch. |
| BinaryDataNodeProperties.MarshalExactlyOneEncoding | foundation/eclipselink.core/src/org/eclipse/persistence/internal/oxm/XMLBinaryDataMappingNodeValue.java:77-146 | XOP writes two start tags and no text. swaRef and inline write one start tag and one text event. An attachment is registered exactly when the encoding is not inline. |
| BinaryDataNodeProperties.MarshalFailureLeavesElementOpen | foundation/eclipselink.core/src/org/eclipse/persistence/internal/oxm/XMLBinaryDataMappingNodeValue.java:75-103 | A failed marshal (a failed cast, or no bytes from the helper) happens only after the owning start tag, leaves that element open and registers nothing. |
| BinaryDataNode.BinaryDataMappingNodeValue.StartElement | foundation/eclipselink.core/src/org/eclipse/persistence/internal/oxm/XMLBinaryDataMappingNodeValue.java:151-182 | The node leaves the null-capable set and the buffer is untouched. The content handler changes exactly when `StartActionOf` delegates. The object's attribute takes the value, in exactly one assignment, exactly when it assigns on start; otherwise the attribute is unchanged. |
| BinaryDataNodeProperties.StartAttributeBorne | foundation/eclipselink.core/src/org/eclipse/persistence/internal/oxm/XMLBinaryDataMappingNodeValue.java:162-180 | An attribute-borne field never delegates. It does nothing exactly when it is swaRef without an unmarshaller, and otherwise assigns (or reports a decode failure). |
| BinaryDataNodeProperties.StartAttributeBase64 | foundation/eclipselink.core/src/org/eclipse/persistence/internal/oxm/XMLBinaryDataMappingNodeValue.java:175-179 | A non-swaRef attribute-borne value is the base64 decoding of the attribute text, coerced to the classification. |
| BinaryDataNodeProperties.StartElementContent | foundation/eclipselink.core/src/org/eclipse/persistence/internal/oxm/XMLBinaryDataMappingNodeValue.java:155-161 | For element content, start never assigns. It delegates exactly in the XOP case. |
| BinaryDataNode.BinaryDataMappingNodeValue.EndElement | foundation/eclipselink.core/src/org/eclipse/persistence/internal/oxm/XMLBinaryDataMappingNodeValue.java:184-222 | The buffer ends empty and the handler is unchanged. Only the non-XOP cases leave the null-capable set. The object's attribute takes the value, in exactly one assignment, exactly when `EndActionOf` assigns; after a reset only or a failure it is unchanged. |
| BinaryDataNodeProperties.EndActionCases | foundation/eclipselink.core/src/org/eclipse/persistence/internal/oxm/XMLBinaryDataMappingNodeValue.java:184-221 | It only resets exactly in the XOP case. swaRef with an unmarshaller looks the content id up. Every other case, swaRef without an unmarshaller included, decodes base64. Both then convert and coerce. |
| BinaryDataNodeProperties.NoDoubleAssignment | foundation/eclipselink.core/src/org/eclipse/persistence/internal/oxm/XMLBinaryDataMappingNodeValue.java:185-189 | Once start has delegated to the attachment handler, end only resets the buffer, whatever text arrived. |
| BinaryDataNodeProperties.InlineRoundTrip | foundation/eclipselink.core/src/org/eclipse/persistence/internal/oxm/XMLBinaryDataMappingNodeValue.java:136-222 | Given a base64 codec that round-trips, a value written inline is decoded on end into the same value, coerced to the classification. This holds for every byte[] value without a converter, and with a converter for every value it turns into a byte[] and back. |
| BinaryDataNodeProperties.SwaRefRoundTrip | foundation/eclipselink.core/src/org/eclipse/persistence/internal/oxm/XMLBinaryDataMappingNodeValue.java:77-198 | A swaRef content id written for a DataHandler resolves on end to the same handler, given an unmarshaller holding that attachment. |
| BinaryDataNode.BinaryDataMappingNodeValue.SetNullValue | foundation/eclipselink.core/src/org/eclipse/persistence/internal/oxm/XMLBinaryDataMappingNodeValue.java:224-227 | The object's attribute becomes the mapping's null value, assigned once. |
| BinaryDataNodeProperties.XopBytesMimeTypeAsWritten | foundation/eclipselink.core/src/org/eclipse/persistence/internal/oxm/XMLBinaryDataMappingNodeValue.java:94-96 | As written, byte[] bytes 1,2,3 of a field `field` with MIME type application/octet-stream are registered with MIME type "field". |
| BinaryDataNodeProperties.XopBytesRegisteredLikeHelperBytes | foundation/eclipselink.core/src/org/eclipse/persistence/internal/oxm/XMLBinaryDataMappingNodeValue.java:94-103 | Corrected: a byte[] value is registered with the mapping's MIME type, element name and namespace, exactly as the same bytes from the helper would be. |
| UpdateAllTempTable.UsedFields | foundation/org.eclipse.persistence.core/src/main/java/org/eclipse/persistence/internal/expressions/SQLUpdateAllStatementForTempTable.java:37-42 | The used fields have the length of both collections together. The primary-key fields come first and the assigned fields after them. |
| UpdateAllTempTable.UsedFieldsKeepDuplicates | foundation/org.eclipse.persistence.core/src/main/java/org/eclipse/persistence/internal/expressions/SQLUpdateAllStatementForTempTable.java:39-40 | As a multiset the used fields are the sum of the two collections, so duplicates are kept. A field is used exactly when it is in either collection. |
| UpdateAllTempTable.FieldVector.Copy | foundation/org.eclipse.persistence.core/src/main/java/org/eclipse/persistence/internal/expressions/SQLUpdateAllStatementForTempTable.java:39 | A new vector holds a copy of the source collection. |
| UpdateAllTempTable.FieldVector.AddAll | foundation/org.eclipse.persistence.core/src/main/java/org/eclipse/persistence/internal/expressions/SQLUpdateAllStatementForTempTable.java:40 | The given elements are appended in order. |
| UpdateAllTempTable.PlatformWriter.WriteUpdateOriginalFromTempTableSql | foundation/org.eclipse.persistence.core/src/main/java/org/eclipse/persistence/internal/expressions/SQLUpdateAllStatementForTempTable.java:46-48 | The platform records one request with the table, the primary-key fields and the assigned fields as they were passed. As foreign code it may change the vectors it is handed. |
| UpdateAllTempTable.SQLUpdateAllStatementForTempTable.SetAssignedFields | foundation/org.eclipse.persistence.core/src/main/java/org/eclipse/persistence/internal/expressions/SQLUpdateAllStatementForTempTable.java:30-35 | After the set, the getter returns that same collection, and the table and primary-key fields are unchanged. |
| UpdateAllTempTable.SQLUpdateAllStatementForTempTable.GetUsedFields | foundation/org.eclipse.persistence.core/src/main/java/org/eclipse/persistence/internal/expressions/SQLUpdateAllStatementForTempTable.java:37-42 | It returns a fresh vector of the primary-key fields followed by the assigned fields. Neither collection changes. |
| UpdateAllTempTable.SQLUpdateAllStatementForTempTable.WriteUpdateOriginalTable | foundation/org.eclipse.persistence.core/src/main/java/org/eclipse/persistence/internal/expressions/SQLUpdateAllStatementForTempTable.java:44-49 | Exactly one request reaches the session's platform, carrying the table, the primary-key fields and the assigned fields, in that order. The statement's collections are unchanged even though the platform may change the vectors it receives, which holds only because it receives copies. |
| MariaDB.MariaDBPlatform.InitializeConnectionData | foundation/org.eclipse.persistence.core/src/main/java/org/eclipse/persistence/platform/database/MariaDBPlatform.java:25-28 | Afterwards the driver supports national character varying. Nothing else changes. |
| MariaDB.PlatformIdentity | foundation/org.eclipse.persistence.core/src/main/java/org/eclipse/persistence/platform/database/MariaDBPlatform.java:30-38 | The platform is MariaDB and is not MySQL. |
| MariaDB.PlatformCapabilities | foundation/org.eclipse.persistence.core/src/main/java/org/eclipse/persistence/platform/database/MariaDBPlatform.java:40-73 | Fractional time, sequence objects and altering a sequence's increment are all supported. |
| MariaDB.MariaDBPlatform.BuildSelectQueryForSequenceObject | foundation/org.eclipse.persistence.core/src/main/java/org/eclipse/persistence/platform/database/MariaDBPlatform.java:53-64 | A query is always built, and as a `select nextval(...)` query it reads exactly the named sequence. |
| MariaDB.SequenceQueryContract | foundation/org.eclipse.persistence.core/src/main/java/org/eclipse/persistence/platform/database/MariaDBPlatform.java:53-64 | Because sequence objects are supported, a query exists for every sequence. The requested size never changes it. |
| MariaDB.MariaDBPlatform.GetDropDatabaseSchemaString | foundation/org.eclipse.persistence.core/src/main/java/org/eclipse/persistence/platform/database/MariaDBPlatform.java:75-81 | Read as a `DROP SCHEMA IF EXISTS` statement, the result drops exactly the given schema. |
| MariaDB.SqlTextsAreInjective | foundation/org.eclipse.persistence.core/src/main/java/org/eclipse/persistence/platform/database/MariaDBPlatform.java:61-81 | Distinct sequences get distinct queries, and distinct schemas get distinct drop statements. |

## Left out

- Base64 and schema-text conversion (`XMLConversionManager`), byte extraction from DataHandlers and other objects, MIME inference (`XMLBinaryDataHelper`) and `convertObject` are parameters (`Conversions`), not implementations. Round trips are stated as hypotheses of the lemmas that need them.
- The hexBinary text that `getValueToWrite` produces is not read back: decoding always goes through base64, as the source does.
- The MIME-type policy (`getMimeType(object)`) is a fixed string on the mapping.
- `setNullValue` takes `getAttributeValue(null, session)` to be the mapping's `nullValue`.
- Converters are a pair of functions. The XMLConverter-versus-Converter dispatch and the session and marshaller arguments are not modelled.
- Content-id generation is a function of how many attachments were registered before. Attachment storage is a recorded list.
- `XMLBinaryAttachmentHandler` and the SAX `setContentHandler` swap are only a recorded content handler that names the node.
- A marshal context other than the object itself is a value handed over (`SuppliedValueContext`).
- `NamespaceResolver.put` appends a binding. Lookup answers the first binding for a URI.
- Thrown exceptions are `Err` results: a failed cast, a value the helper cannot read, malformed base64, an unknown attachment id.
- BinaryDataNode.BinaryDataMappingNodeValue.StartElement: it does not always answer true. On a malformed attribute or an unknown attachment id it answers the error, where the source would throw from the collaborator.
- An absent XML attribute is an assumption of the model. `startElement` passes the null string to the attachment lookup or the base64 decoder, which are not part of this model. The model takes those collaborators to answer null for a null id or text, so a null value reaches `convertObject`.
- A null collection in `SQLUpdateAllStatementForTempTable` (which makes the source throw) is not modelled: collections are non-null references.
- The SQL text the platform writes for the update, the `Writer`, and `IOException` are left out. So is the JDBC `Connection` passed to `initializeConnectionData`, which the source ignores.
- `isNullCapableValue` (always true) is taken as given: the node is a null-capable value held in the unmarshal record's set.
- `FieldMetadata` and the test classes are not part of this model.
- The model follows the code in two places where a reader might expect other behaviour:
  - for a null value the code writes only the grouping elements. It writes no owning start and end tag, so the element is absent, not empty.
  - for attribute-borne values `startElement` applies no converter, whereas `endElement` applies the converter's inverse.

## Findings

| source | as written | input that shows it | evidently intended | confidence | as-written member | corrected member |
|---|---|---|---|---|---|---|
| foundation/eclipselink.core/src/org/eclipse/persistence/internal/oxm/XMLBinaryDataMappingNodeValue.java:96 | The byte[] XOP case passes (local name, namespace URI, null) where the attachment marshaller takes (MIME type, element name, element namespace), as the call at line 103 does. Modelled by `BinaryDataNode.XopAttachmentAsWritten`. | A byte[] value [1,2,3] for a field named `field` with MIME type application/octet-stream is registered with MIME type "field" and element name absent. | Register the mapping's MIME type, the element's local name and its namespace, as for the helper's bytes at line 103. Modelled by `BinaryDataNode.XopAttachment`, which the node uses. | not executed | BinaryDataNodeProperties.XopBytesMimeTypeAsWritten | BinaryDataNodeProperties.XopBytesRegisteredLikeHelperBytes |
