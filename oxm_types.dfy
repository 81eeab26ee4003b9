/**
 * The values the XML binary-data mapping works on: attribute values, type
 * classifications, XPath fragments, the mapping descriptor, the conversion
 * collaborators, the events written to a marshal record and the attachments
 * handed to an attachment marshaller.
 */
module OxmTypes {
  import opened Wrappers

  newtype byte = x: int | 0 <= x < 256

  /** Namespace constants of the XML-binary Optimized Packaging (XOP) standard and of XML namespaces. */
  const XOP_URL: string := "http://www.w3.org/2004/08/xop/include"
  const XOP_PREFIX: string := "xop"
  const XMLNS_URL: string := "http://www.w3.org/2000/xmlns/"
  const XMLNS: string := "xmlns"

  /** A javax.activation DataHandler: some content with its MIME type. */
  datatype DataHandler = DataHandler(content: seq<byte>, contentType: string)

  /** The runtime value of a binary attribute, by its Java class. */
  datatype Value =
    | Null                                    // a null reference
    | Bytes(bytes: seq<byte>)                 // byte[]
    | BoxedBytes(bytes: seq<byte>)            // Byte[]
    | Handler(handler: DataHandler)           // DataHandler
    | OtherObject(typeName: string)           // an image, a Source, ...: read through the binary-data helper

  /** The declared class of the mapped attribute. */
  datatype Classification = ByteArrayClass | BoxedByteArrayClass | DataHandlerClass | OtherClass(name: string)

  /** The schema type of the XML field. */
  datatype SchemaType = Base64Binary | HexBinary | OtherSchemaType(name: string)

  /** One step of an XPath: its name, namespace, whether it names an attribute, and the step after it. */
  datatype XPathFragment = XPathFragment(
    qualifiedName: string,
    localName: string,
    namespaceURI: Option<string>,
    isAttribute: bool,
    nextFragment: Option<XPathFragment>)

  /** The XML field of a mapping: the last step of its path and its schema type. */
  datatype XmlField = XmlField(lastFragment: XPathFragment, schemaType: SchemaType)

  /** A value converter: object value to data value on the way out, and back on the way in. */
  datatype Converter = Converter(toDataValue: Value -> Value, toObjectValue: Value -> Value)

  /**
   * The XML binary-data mapping descriptor. `nullValue` is what the mapping's
   * attribute-value conversion yields for a null field value.
   */
  datatype BinaryDataMapping = BinaryDataMapping(
    isReadOnly: bool,
    isSwaRef: bool,
    shouldInlineBinaryData: bool,
    attributeClassification: Classification,
    converter: Option<Converter>,
    field: XmlField,
    mimeType: string,
    nullValue: Value)

  /** Bytes with a MIME type, as the binary-data helper extracts them from a value. */
  datatype EncodedData = EncodedData(data: seq<byte>, mimeType: string)

  /**
   * The conversion collaborators, passed explicitly instead of as singletons:
   * the XML conversion manager (schema text and base64) and the binary-data helper.
   * `bytesForBinaryValue` yields None for a value it cannot read as bytes.
   * `base64ToBytes` yields None for malformed base64 text.
   */
  datatype Conversions = Conversions(
    base64Text: seq<byte> -> string,
    schemaText: (SchemaType, seq<byte>) -> string,
    base64ToBytes: string -> Option<seq<byte>>,
    bytesForBinaryValue: (Value, string) -> Option<EncodedData>,
    convertObject: (Value, Classification) -> Value)

  /** A namespace declaration of a namespace resolver. */
  datatype Binding = Binding(prefix: string, namespaceURI: string)

  /** The declarations of the namespace resolver in force for an event, or None for a null resolver. */
  type Scope = Option<seq<Binding>>

  /** One call made on a marshal record. */
  datatype Event =
    | OpenStartGrouping(scope: Scope)
    | CloseStartGrouping
    | OpenStart(fragment: XPathFragment, scope: Scope)
    | CloseStart
    | Attribute(namespaceURI: string, localName: string, qName: string, value: string)
    | Characters(text: string)
    | End(fragment: XPathFragment, scope: Scope)

  /** One registration with an attachment marshaller, as its arguments were passed. */
  datatype Attachment =
    | SwaRefHandler(handler: DataHandler)
    | SwaRefBytes(data: seq<byte>)
    | MtomHandler(handler: DataHandler, elementName: Option<string>, elementNamespace: Option<string>)
    | MtomBytes(data: seq<byte>, mimeType: Option<string>, elementName: Option<string>, elementNamespace: Option<string>)

  /** The exceptions marshalling can raise. */
  datatype MarshalError =
    | ClassCast                 // a value cast to DataHandler that is not one
    | UnsupportedBinaryType     // the binary-data helper cannot read the value as bytes

  /** The exceptions unmarshalling can raise. */
  datatype DecodeError =
    | MalformedBase64(text: string)
    | MissingAttachment(contentId: string)

  /**
   * The attachment unmarshaller: whether it reads an XOP package, and the
   * attachments it holds by content id.
   */
  datatype AttachmentUnmarshaller = AttachmentUnmarshaller(isXOPPackage: bool, parts: map<string, DataHandler>)

  /** The attributes of a start tag, by namespace URI and local name. */
  datatype Attributes = Attributes(values: map<(Option<string>, string), string>)
  {
    function GetValue(namespaceURI: Option<string>, localName: string): Option<string>
    {
      if (namespaceURI, localName) in values then Some(values[(namespaceURI, localName)]) else None
    }
  }
}
