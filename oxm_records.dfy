/**
 * The collaborators the binary-data node talks to: namespace resolvers, the
 * marshal record it writes events into, the attachment marshaller that stores
 * attachments, the domain object whose attribute is read and written, and the
 * unmarshal record that drives decoding.
 */
module OxmRecords {
  import opened Wrappers
  import opened OxmTypes

  /** The first prefix declared for `uri`, in declaration order. */
  function PrefixFor(declarations: seq<Binding>, uri: string): (r: Option<string>)
    ensures r.Some? ==> Binding(r.value, uri) in declarations
    ensures r.None? <==> forall i :: 0 <= i < |declarations| ==> declarations[i].namespaceURI != uri
  {
    if declarations == [] then None
    else if declarations[0].namespaceURI == uri then Some(declarations[0].prefix)
    else PrefixFor(declarations[1..], uri)
  }

  /** A mutable prefix-to-namespace table. */
  class NamespaceResolver {
    var declarations: seq<Binding>

    constructor()
      ensures declarations == []
    {
      declarations := [];
    }

    method Put(prefix: string, uri: string)
      modifies this
      ensures declarations == old(declarations) + [Binding(prefix, uri)]
    {
      declarations := declarations + [Binding(prefix, uri)];
    }

    function ResolveNamespaceURI(uri: string): Option<string>
      reads this
    {
      PrefixFor(declarations, uri)
    }
  }

  /** The declarations of a possibly null resolver, as recorded with an event. */
  function ScopeOf(resolver: NamespaceResolver?): Scope
    reads resolver
  {
    if resolver == null then None else Some(resolver.declarations)
  }

  /**
   * An attachment marshaller: it stores every attachment it is given and
   * answers with the content id `contentIdFor(n)` for the n-th one.
   */
  class AttachmentMarshaller {
    const isXOPPackage: bool
    const contentIdFor: nat -> string
    var attachments: seq<Attachment>

    constructor(isXOPPackage: bool, contentIdFor: nat -> string)
      ensures this.isXOPPackage == isXOPPackage && this.contentIdFor == contentIdFor
      ensures attachments == []
    {
      this.isXOPPackage := isXOPPackage;
      this.contentIdFor := contentIdFor;
      attachments := [];
    }

    /** The content id the next attachment will be given. */
    function NextContentId(): string
      reads this
    {
      contentIdFor(|attachments|)
    }

    method AddSwaRefAttachment(handler: DataHandler) returns (cid: string)
      modifies this
      ensures cid == old(NextContentId())
      ensures attachments == old(attachments) + [SwaRefHandler(handler)]
    {
      cid := contentIdFor(|attachments|);
      attachments := attachments + [SwaRefHandler(handler)];
    }

    method AddSwaRefBytes(data: seq<byte>, start: nat, length: nat) returns (cid: string)
      requires start + length <= |data|
      modifies this
      ensures cid == old(NextContentId())
      ensures attachments == old(attachments) + [SwaRefBytes(data[start..start + length])]
    {
      cid := contentIdFor(|attachments|);
      attachments := attachments + [SwaRefBytes(data[start..start + length])];
    }

    method AddMtomHandler(handler: DataHandler, elementName: Option<string>, elementNamespace: Option<string>)
      returns (cid: string)
      modifies this
      ensures cid == old(NextContentId())
      ensures attachments == old(attachments) + [MtomHandler(handler, elementName, elementNamespace)]
    {
      cid := contentIdFor(|attachments|);
      attachments := attachments + [MtomHandler(handler, elementName, elementNamespace)];
    }

    method AddMtomBytes(data: seq<byte>, start: nat, length: nat, mimeType: Option<string>,
                        elementName: Option<string>, elementNamespace: Option<string>) returns (cid: string)
      requires start + length <= |data|
      modifies this
      ensures cid == old(NextContentId())
      ensures attachments == old(attachments) + [MtomBytes(data[start..start + length], mimeType, elementName, elementNamespace)]
    {
      cid := contentIdFor(|attachments|);
      attachments := attachments + [MtomBytes(data[start..start + length], mimeType, elementName, elementNamespace)];
    }
  }

  /** An XML marshaller; only its (possibly null) attachment marshaller matters here. */
  class Marshaller {
    const attachmentMarshaller: AttachmentMarshaller?

    constructor(attachmentMarshaller: AttachmentMarshaller?)
      ensures this.attachmentMarshaller == attachmentMarshaller
    {
      this.attachmentMarshaller := attachmentMarshaller;
    }
  }

  /** A marshal record: the output side, which records every call made on it in order. */
  class MarshalRecord {
    const marshaller: Marshaller
    var events: seq<Event>

    constructor(marshaller: Marshaller)
      ensures this.marshaller == marshaller && events == []
    {
      this.marshaller := marshaller;
      events := [];
    }

    method OpenStartGroupingElements(resolver: NamespaceResolver?)
      modifies this
      ensures events == old(events) + [OpenStartGrouping(ScopeOf(resolver))]
    {
      events := events + [OpenStartGrouping(ScopeOf(resolver))];
    }

    method CloseStartGroupingElements()
      modifies this
      ensures events == old(events) + [CloseStartGrouping]
    {
      events := events + [CloseStartGrouping];
    }

    method OpenStartElement(fragment: XPathFragment, resolver: NamespaceResolver?)
      modifies this
      ensures events == old(events) + [OpenStart(fragment, ScopeOf(resolver))]
    {
      events := events + [OpenStart(fragment, ScopeOf(resolver))];
    }

    method CloseStartElement()
      modifies this
      ensures events == old(events) + [CloseStart]
    {
      events := events + [CloseStart];
    }

    method AddAttribute(namespaceURI: string, localName: string, qName: string, value: string)
      modifies this
      ensures events == old(events) + [Attribute(namespaceURI, localName, qName, value)]
    {
      events := events + [Attribute(namespaceURI, localName, qName, value)];
    }

    method WriteCharacters(text: string)
      modifies this
      ensures events == old(events) + [Characters(text)]
    {
      events := events + [Characters(text)];
    }

    method EndElement(fragment: XPathFragment, resolver: NamespaceResolver?)
      modifies this
      ensures events == old(events) + [End(fragment, ScopeOf(resolver))]
    {
      events := events + [End(fragment, ScopeOf(resolver))];
    }
  }

  /**
   * The domain object that owns the binary attribute. `assignments` logs every
   * value written into the attribute, so that "assigned exactly once" can be said.
   */
  class DomainObject {
    var binaryAttribute: Value
    ghost var assignments: seq<Value>

    constructor(initial: Value)
      ensures binaryAttribute == initial && assignments == []
    {
      binaryAttribute := initial;
      assignments := [];
    }

    method SetAttributeValue(value: Value)
      modifies this
      ensures binaryAttribute == value
      ensures assignments == old(assignments) + [value]
    {
      binaryAttribute := value;
      assignments := assignments + [value];
    }
  }

  /** Who receives the parser's events: the record itself, or an attachment handler installed by a node. */
  datatype ContentHandler = RecordHandler | AttachmentHandler(node: object)

  /**
   * An unmarshal record: the input side. It buffers character data, keeps the
   * set of null-capable nodes still pending, and knows the current object.
   */
  class UnmarshalRecord {
    const attachmentUnmarshaller: Option<AttachmentUnmarshaller>
    const currentObject: DomainObject
    var stringBuffer: string
    var nullCapableValues: set<object>
    var contentHandler: ContentHandler

    constructor(attachmentUnmarshaller: Option<AttachmentUnmarshaller>, currentObject: DomainObject)
      ensures this.attachmentUnmarshaller == attachmentUnmarshaller && this.currentObject == currentObject
      ensures stringBuffer == "" && nullCapableValues == {} && contentHandler == RecordHandler
    {
      this.attachmentUnmarshaller := attachmentUnmarshaller;
      this.currentObject := currentObject;
      stringBuffer := "";
      nullCapableValues := {};
      contentHandler := RecordHandler;
    }

    method RemoveNullCapableValue(node: object)
      modifies this
      ensures nullCapableValues == old(nullCapableValues) - {node}
      ensures stringBuffer == old(stringBuffer) && contentHandler == old(contentHandler)
    {
      nullCapableValues := nullCapableValues - {node};
    }

    method ResetStringBuffer()
      modifies this
      ensures stringBuffer == ""
      ensures nullCapableValues == old(nullCapableValues) && contentHandler == old(contentHandler)
    {
      stringBuffer := "";
    }

    method SetContentHandler(handler: ContentHandler)
      modifies this
      ensures contentHandler == handler
      ensures nullCapableValues == old(nullCapableValues) && stringBuffer == old(stringBuffer)
    {
      contentHandler := handler;
    }
  }
}
