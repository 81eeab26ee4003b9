/**
 * The tree-walk node of the XML binary-data mapping: it encodes a binary
 * attribute into a marshal record (as a swaRef content id, an XOP Include
 * element or inline base64 text) and decodes it back from parser events.
 *
 * The specification functions below say what one call does; the class
 * BinaryDataMappingNodeValue performs the calls on the records step by step
 * and is proved to do exactly what they say.
 */
module BinaryDataNode {
  import opened Wrappers
  import opened OxmTypes
  import opened OxmRecords

  // ---------------------------------------------------------------------------
  // Small pure operations
  // ---------------------------------------------------------------------------

  /** A node owns a fragment when the fragment is the last step or is followed by an attribute step. */
  predicate IsOwningNode(fragment: XPathFragment): (r: bool)
    ensures r <==> |Steps(fragment)| == 1 || Steps(fragment)[1].isAttribute
  {
    fragment.nextFragment.None? || fragment.nextFragment.value.isAttribute
  }

  /** The steps of an XPath, starting at `fragment`. */
  function Steps(fragment: XPathFragment): (steps: seq<XPathFragment>)
    ensures |steps| >= 1 && steps[0] == fragment
    ensures forall i :: 0 <= i < |steps| - 1 ==> steps[i].nextFragment == Some(steps[i + 1])
    ensures steps[|steps| - 1].nextFragment.None?
  {
    match fragment.nextFragment
    case None => [fragment]
    case Some(next) => [fragment] + Steps(next)
  }

  /**
   * The text written for some bytes in the field's schema type: base64 for
   * xs:base64Binary, the conversion manager's schema text otherwise.
   */
  function ValueToWrite(conversions: Conversions, schemaType: SchemaType, bytes: seq<byte>): (text: string)
    ensures (schemaType == Base64Binary && conversions.base64ToBytes(conversions.base64Text(bytes)) == Some(bytes))
            ==> Base64Value(conversions, text) == Ok(Bytes(bytes))
  {
    if schemaType == Base64Binary then conversions.base64Text(bytes)
    else conversions.schemaText(schemaType, bytes)
  }

  /**
   * The object as a DataHandler when the classification is DataHandler (a
   * cast, which fails for any other non-null object), and null otherwise.
   */
  function DataHandlerForObjectValue(obj: Value, classification: Classification): (r: Result<Option<DataHandler>, MarshalError>)
    ensures classification != DataHandlerClass ==> r == Ok(None)
    ensures classification == DataHandlerClass ==>
              (r.Ok? <==> obj.Handler? || obj.Null?) &&
              (obj.Handler? ==> r == Ok(Some(obj.handler))) &&
              (obj.Null? ==> r == Ok(None))
  {
    if classification != DataHandlerClass then Ok(None)
    else match obj
      case Null => Ok(None)
      case Handler(h) => Ok(Some(h))
      case _ => Err(ClassCast)
  }

  /** The attribute value after the mapping's converter, on the way out. */
  function DataValue(mapping: BinaryDataMapping, value: Value): Value
  {
    match mapping.converter
    case None => value
    case Some(c) => c.toDataValue(value)
  }

  /** A decoded value after the mapping's converter, on the way in. */
  function ObjectValue(mapping: BinaryDataMapping, value: Value): Value
  {
    match mapping.converter
    case None => value
    case Some(c) => c.toObjectValue(value)
  }

  // ---------------------------------------------------------------------------
  // Encode path
  // ---------------------------------------------------------------------------

  /** Where a marshal call takes the attribute value from. */
  datatype MarshalContext =
    | ObjectMarshalContext             // read the attribute from the object
    | SuppliedValueContext(value: Value) // a context that hands the value over itself

  function AttributeValueIn(context: MarshalContext, obj: DomainObject): Value
    reads obj
  {
    match context
    case ObjectMarshalContext => obj.binaryAttribute
    case SuppliedValueContext(v) => v
  }

  /** What marshalling needs to know of an attachment marshaller: its kind and the id it will hand out next. */
  datatype AttachmentView = AttachmentView(isXOPPackage: bool, nextContentId: string)

  function ViewOf(marshaller: AttachmentMarshaller?): Option<AttachmentView>
    reads marshaller
  {
    if marshaller == null then None
    else Some(AttachmentView(marshaller.isXOPPackage, marshaller.NextContentId()))
  }

  /** The three encodings of a non-null value. */
  datatype Encoding = SwaRefEncoding | XopEncoding | InlineEncoding

  /** The encoding a marshal call takes: swaRef first, then XOP, and inline base64 otherwise. */
  function EncodingFor(mapping: BinaryDataMapping, attachments: Option<AttachmentView>): (e: Encoding)
    ensures e != InlineEncoding ==> attachments.Some?
    ensures e == XopEncoding ==> attachments.value.isXOPPackage
  {
    if mapping.isSwaRef && attachments.Some? then SwaRefEncoding
    else if attachments.Some? && attachments.value.isXOPPackage && !mapping.shouldInlineBinaryData then XopEncoding
    else InlineEncoding
  }

  /** The attachment registered for a swaRef value. */
  function SwaRefAttachment(mapping: BinaryDataMapping, conversions: Conversions, value: Value): Result<Attachment, MarshalError>
  {
    if mapping.attributeClassification == DataHandlerClass then
      if value.Handler? then Ok(SwaRefHandler(value.handler)) else Err(ClassCast)
    else
      match conversions.bytesForBinaryValue(value, mapping.mimeType)
      case None => Err(UnsupportedBinaryType)
      case Some(data) => Ok(SwaRefBytes(data.data))
  }

  /**
   * The attachment registered for an XOP value, with the arguments in the
   * order the attachment marshaller defines: data, MIME type, element name,
   * element namespace. A byte[] value carries the mapping's MIME type.
   */
  function XopAttachment(mapping: BinaryDataMapping, conversions: Conversions, value: Value): Result<Attachment, MarshalError>
  {
    var last := mapping.field.lastFragment;
    if value.Bytes? then
      Ok(MtomBytes(value.bytes, Some(mapping.mimeType), Some(last.localName), last.namespaceURI))
    else if mapping.attributeClassification == DataHandlerClass then
      if value.Handler? then Ok(MtomHandler(value.handler, Some(last.localName), last.namespaceURI)) else Err(ClassCast)
    else
      match conversions.bytesForBinaryValue(value, mapping.mimeType)
      case None => Err(UnsupportedBinaryType)
      case Some(data) => Ok(MtomBytes(data.data, Some(data.mimeType), Some(last.localName), last.namespaceURI))
  }

  /**
   * The XOP attachment exactly as the byte[] case of the source registers it:
   * the local name lands in the MIME-type slot, the namespace URI in the
   * element-name slot, and null in the namespace slot.
   */
  function XopAttachmentAsWritten(mapping: BinaryDataMapping, conversions: Conversions, value: Value): Result<Attachment, MarshalError>
  {
    var last := mapping.field.lastFragment;
    if value.Bytes? then
      Ok(MtomBytes(value.bytes, Some(last.localName), last.namespaceURI, None))
    else
      XopAttachment(mapping, conversions, value)
  }

  /** The text written for an inline value. */
  function InlineText(mapping: BinaryDataMapping, conversions: Conversions, value: Value): Result<string, MarshalError>
  {
    if value.Bytes? || value.BoxedBytes? then
      Ok(ValueToWrite(conversions, mapping.field.schemaType, value.bytes))
    else
      match conversions.bytesForBinaryValue(value, mapping.mimeType)
      case None => Err(UnsupportedBinaryType)
      case Some(data) => Ok(ValueToWrite(conversions, mapping.field.schemaType, data.data))
  }

  /**
   * The XOP prefix an Include element uses, whether it must declare it, and
   * the namespace scope it is written with.
   */
  datatype XopNamespace = XopNamespace(prefix: string, addDeclaration: bool, scope: Scope)

  /** The one-off scope that binds only the default XOP prefix. */
  const XopOnlyScope: Scope := Some([Binding(XOP_PREFIX, XOP_URL)])

  function XopNamespaceFor(scope: Scope): (x: XopNamespace)
    ensures x.addDeclaration <==> scope.None? || forall i :: 0 <= i < |scope.value| ==> scope.value[i].namespaceURI != XOP_URL
    ensures x.addDeclaration ==> x.prefix == XOP_PREFIX && x.scope == XopOnlyScope
    ensures !x.addDeclaration ==> x.scope == scope && Binding(x.prefix, XOP_URL) in scope.value
  {
    if scope.None? then XopNamespace(XOP_PREFIX, true, XopOnlyScope)
    else match PrefixFor(scope.value, XOP_URL)
      case None => XopNamespace(XOP_PREFIX, true, XopOnlyScope)
      case Some(p) => XopNamespace(p, false, scope)
  }

  function IncludeFragment(prefix: string): XPathFragment
  {
    XPathFragment(prefix + ":Include", "Include", Some(XOP_URL), false, None)
  }

  /** The events of an XOP Include element, up to and including its end tag. */
  function IncludeElementEvents(fragment: XPathFragment, xop: XopNamespace, contentId: string): seq<Event>
  {
    [OpenStart(IncludeFragment(xop.prefix), xop.scope), Attribute("", "href", "href", contentId)]
    + (if xop.addDeclaration then [Attribute(XMLNS_URL, xop.prefix, XMLNS + ":" + xop.prefix, XOP_URL)] else [])
    + [CloseStart, End(fragment, xop.scope)]
  }

  /** What one marshal call does: its result, the events it appends, and the attachment it registers. */
  datatype MarshalOutcome = MarshalOutcome(result: Result<bool, MarshalError>, events: seq<Event>, attachment: Option<Attachment>)

  /** What a marshal call does after the owning start tag, for a non-null value: content, then the closing tag. */
  function ContentSpec(mapping: BinaryDataMapping, conversions: Conversions, fragment: XPathFragment,
                       value: Value, scope: Scope, attachments: Option<AttachmentView>): MarshalOutcome
  {
    match EncodingFor(mapping, attachments)
    case SwaRefEncoding =>
      (match SwaRefAttachment(mapping, conversions, value)
       case Err(e) => MarshalOutcome(Err(e), [], None)
       case Ok(a) => MarshalOutcome(Ok(true), [Characters(attachments.value.nextContentId), End(fragment, scope)], Some(a)))
    case XopEncoding =>
      (match XopAttachment(mapping, conversions, value)
       case Err(e) => MarshalOutcome(Err(e), [], None)
       case Ok(a) =>
         var xop := XopNamespaceFor(scope);
         MarshalOutcome(Ok(true), IncludeElementEvents(fragment, xop, attachments.value.nextContentId)
                                  + [End(fragment, xop.scope)], Some(a)))
    case InlineEncoding =>
      (match InlineText(mapping, conversions, value)
       case Err(e) => MarshalOutcome(Err(e), [], None)
       case Ok(text) => MarshalOutcome(Ok(true), [Characters(text), End(fragment, scope)], None))
  }

  /** What one marshal call of the node does, given the attribute value it reads. */
  function MarshalSpec(mapping: BinaryDataMapping, conversions: Conversions, fragment: XPathFragment,
                       attributeValue: Value, scope: Scope, attachments: Option<AttachmentView>): MarshalOutcome
  {
    if mapping.isReadOnly then MarshalOutcome(Ok(false), [], None)
    else
      var value := DataValue(mapping, attributeValue);
      var grouping := [OpenStartGrouping(scope), CloseStartGrouping];
      if value.Null? then MarshalOutcome(Ok(true), grouping, None)
      else
        var content := ContentSpec(mapping, conversions, fragment, value, scope, attachments);
        MarshalOutcome(content.result, grouping + [OpenStart(fragment, scope), CloseStart] + content.events, content.attachment)
  }

  function AsSeq<T>(o: Option<T>): seq<T>
  {
    if o.Some? then [o.value] else []
  }

  // ---------------------------------------------------------------------------
  // Decode path
  // ---------------------------------------------------------------------------

  /** The value an attachment unmarshaller returns for a content id: a DataHandler or its bytes, by classification. */
  function AttachmentValue(mapping: BinaryDataMapping, attachments: AttachmentUnmarshaller, contentId: string): Result<Value, DecodeError>
  {
    if contentId !in attachments.parts then Err(MissingAttachment(contentId))
    else if mapping.attributeClassification == DataHandlerClass then Ok(Handler(attachments.parts[contentId]))
    else Ok(Bytes(attachments.parts[contentId].content))
  }

  /** The bytes of base64 text, as a byte[] value. */
  function Base64Value(conversions: Conversions, text: string): Result<Value, DecodeError>
  {
    match conversions.base64ToBytes(text)
    case None => Err(MalformedBase64(text))
    case Some(b) => Ok(Bytes(b))
  }

  /** What startElement does besides deregistering the node as null-capable. */
  datatype StartAction =
    | DelegateToAttachmentHandler   // install the XOP attachment handler
    | AssignOnStart(value: Value)   // attribute-borne value, assigned now
    | NoAction                      // text is left to be buffered
    | StartFailure(error: DecodeError)

  function StartActionOf(mapping: BinaryDataMapping, conversions: Conversions,
                         attachments: Option<AttachmentUnmarshaller>, atts: Attributes): StartAction
  {
    var last := mapping.field.lastFragment;
    if !mapping.isSwaRef && !mapping.shouldInlineBinaryData && !last.isAttribute then
      if attachments.Some? && attachments.value.isXOPPackage then DelegateToAttachmentHandler else NoAction
    else if last.isAttribute then
      var text := atts.GetValue(last.namespaceURI, last.localName);
      if mapping.isSwaRef && attachments.None? then NoAction
      else
        var raw :=
          if text.None? then Ok(Null)
          else if mapping.isSwaRef then AttachmentValue(mapping, attachments.value, text.value)
          else Base64Value(conversions, text.value);
        match raw
        case Err(e) => StartFailure(e)
        case Ok(v) => AssignOnStart(conversions.convertObject(v, mapping.attributeClassification))
    else NoAction
  }

  /** What endElement does besides resetting the text buffer. */
  datatype EndAction =
    | ResetOnly                   // the XOP attachment handler has already assigned
    | AssignOnEnd(value: Value)
    | EndFailure(error: DecodeError)

  predicate IsXopDecode(mapping: BinaryDataMapping, attachments: Option<AttachmentUnmarshaller>)
  {
    !mapping.shouldInlineBinaryData && !mapping.isSwaRef && attachments.Some? && attachments.value.isXOPPackage
  }

  function EndActionOf(mapping: BinaryDataMapping, conversions: Conversions,
                       attachments: Option<AttachmentUnmarshaller>, text: string): EndAction
  {
    if IsXopDecode(mapping, attachments) then ResetOnly
    else
      var raw :=
        if mapping.isSwaRef && attachments.Some? then AttachmentValue(mapping, attachments.value, text)
        else Base64Value(conversions, text);
      match raw
      case Err(e) => EndFailure(e)
      case Ok(v) => AssignOnEnd(conversions.convertObject(ObjectValue(mapping, v), mapping.attributeClassification))
  }

  // ---------------------------------------------------------------------------
  // The node
  // ---------------------------------------------------------------------------

  class BinaryDataMappingNodeValue {
    const mapping: BinaryDataMapping
    const conversions: Conversions

    constructor(mapping: BinaryDataMapping, conversions: Conversions)
      ensures this.mapping == mapping && this.conversions == conversions
    {
      this.mapping := mapping;
      this.conversions := conversions;
    }

    /** Marshal the attribute of `obj`, reading it from the object itself. */
    method Marshal(fragment: XPathFragment, record: MarshalRecord, obj: DomainObject, resolver: NamespaceResolver?)
      returns (r: Result<bool, MarshalError>)
      modifies record, record.marshaller.attachmentMarshaller
      ensures resolver != null ==> resolver.declarations == old(resolver.declarations)
      ensures var o := MarshalSpec(mapping, conversions, fragment, old(obj.binaryAttribute), old(ScopeOf(resolver)),
                                   old(ViewOf(record.marshaller.attachmentMarshaller)));
              && r == o.result
              && record.events == old(record.events) + o.events
              && (record.marshaller.attachmentMarshaller != null ==>
                    record.marshaller.attachmentMarshaller.attachments
                      == old(record.marshaller.attachmentMarshaller.attachments) + AsSeq(o.attachment))
    {
      r := MarshalInContext(fragment, record, obj, resolver, ObjectMarshalContext);
    }

    /**
     * Marshal the attribute value `context` yields. The caller's resolver is
     * only read: an XOP declaration, when needed, goes on a resolver created here.
     */
    method MarshalInContext(fragment: XPathFragment, record: MarshalRecord, obj: DomainObject,
                            resolver: NamespaceResolver?, context: MarshalContext)
      returns (r: Result<bool, MarshalError>)
      modifies record, record.marshaller.attachmentMarshaller
      ensures resolver != null ==> resolver.declarations == old(resolver.declarations)
      ensures var o := MarshalSpec(mapping, conversions, fragment, old(AttributeValueIn(context, obj)), old(ScopeOf(resolver)),
                                   old(ViewOf(record.marshaller.attachmentMarshaller)));
              && r == o.result
              && record.events == old(record.events) + o.events
              && (record.marshaller.attachmentMarshaller != null ==>
                    record.marshaller.attachmentMarshaller.attachments
                      == old(record.marshaller.attachmentMarshaller.attachments) + AsSeq(o.attachment))
    {
      if mapping.isReadOnly {
        return Ok(false);
      }
      var objectValue := AttributeValueIn(context, obj);
      if mapping.converter.Some? {
        objectValue := mapping.converter.value.toDataValue(objectValue);
      }
      record.OpenStartGroupingElements(resolver);
      record.CloseStartGroupingElements();
      if objectValue.Null? {
        return Ok(true);
      }
      record.OpenStartElement(fragment, resolver);
      record.CloseStartElement();
      r := WriteContent(fragment, record, objectValue, resolver);
    }

    /** Everything after the owning start tag: exactly one encoding, then the closing tag. */
    method WriteContent(fragment: XPathFragment, record: MarshalRecord, value: Value, resolver: NamespaceResolver?)
      returns (r: Result<bool, MarshalError>)
      modifies record, record.marshaller.attachmentMarshaller
      ensures resolver != null ==> resolver.declarations == old(resolver.declarations)
      ensures var o := ContentSpec(mapping, conversions, fragment, value, old(ScopeOf(resolver)),
                                   old(ViewOf(record.marshaller.attachmentMarshaller)));
              && r == o.result
              && record.events == old(record.events) + o.events
              && (record.marshaller.attachmentMarshaller != null ==>
                    record.marshaller.attachmentMarshaller.attachments
                      == old(record.marshaller.attachmentMarshaller.attachments) + AsSeq(o.attachment))
    {
      var am := record.marshaller.attachmentMarshaller;
      var current := resolver;  // the resolver the closing tag is written with
      var written: Result<(), MarshalError>;
      if mapping.isSwaRef && am != null {
        written := WriteSwaRef(record, am, value);
      } else if am != null && am.isXOPPackage && !mapping.shouldInlineBinaryData {
        written, current := WriteXopInclude(fragment, record, am, value, resolver);
      } else {
        written := WriteInline(record, value);
      }
      if written.Err? {
        return Err(written.error);
      }
      record.EndElement(fragment, current);
      return Ok(true);
    }

    /** The swaRef branch: register the attachment and write its content id as text. */
    method WriteSwaRef(record: MarshalRecord, am: AttachmentMarshaller, value: Value) returns (r: Result<(), MarshalError>)
      modifies record, am
      ensures var a := SwaRefAttachment(mapping, conversions, value);
              && (a.Err? ==> r == Err(a.error) && record.events == old(record.events) && am.attachments == old(am.attachments))
              && (a.Ok? ==> r == Ok(()) && record.events == old(record.events) + [Characters(old(am.NextContentId()))]
                                         && am.attachments == old(am.attachments) + [a.value])
    {
      var cid: string;
      if mapping.attributeClassification == DataHandlerClass {
        if !value.Handler? {
          return Err(ClassCast);
        }
        cid := am.AddSwaRefAttachment(value.handler);
      } else {
        var data := conversions.bytesForBinaryValue(value, mapping.mimeType);
        if data.None? {
          return Err(UnsupportedBinaryType);
        }
        var bytes := data.value.data;
        assert bytes[0..|bytes|] == bytes;
        cid := am.AddSwaRefBytes(bytes, 0, |bytes|);
      }
      record.WriteCharacters(cid);
      return Ok(());
    }

    /**
     * The XOP branch: register the attachment and write an Include element
     * referring to it. Returns the resolver the owning element is closed with:
     * the caller's, or a new one that declares only the XOP prefix.
     */
    method WriteXopInclude(fragment: XPathFragment, record: MarshalRecord, am: AttachmentMarshaller, value: Value,
                           resolver: NamespaceResolver?) returns (r: Result<(), MarshalError>, current: NamespaceResolver?)
      modifies record, am
      ensures resolver != null ==> resolver.declarations == old(resolver.declarations)
      ensures var a := XopAttachment(mapping, conversions, value);
              var xop := XopNamespaceFor(old(ScopeOf(resolver)));
              && (a.Err? ==> r == Err(a.error) && record.events == old(record.events) && am.attachments == old(am.attachments))
              && (a.Ok? ==> r == Ok(()) && ScopeOf(current) == xop.scope
                            && record.events == old(record.events) + IncludeElementEvents(fragment, xop, old(am.NextContentId()))
                            && am.attachments == old(am.attachments) + [a.value])
    {
      current := resolver;
      var registered := AddXopAttachment(am, value);
      if registered.Err? {
        return Err(registered.error), current;
      }
      current := WriteInclude(fragment, record, registered.value, resolver);
      r := Ok(());
    }

    /** Register an XOP attachment for `value`; answers its content id. */
    method AddXopAttachment(am: AttachmentMarshaller, value: Value) returns (r: Result<string, MarshalError>)
      modifies am
      ensures var a := XopAttachment(mapping, conversions, value);
              && (a.Err? ==> r == Err(a.error) && am.attachments == old(am.attachments))
              && (a.Ok? ==> r == Ok(old(am.NextContentId())) && am.attachments == old(am.attachments) + [a.value])
    {
      var lastFrag := mapping.field.lastFragment;
      var cid: string;
      if value.Bytes? {
        var bytes := value.bytes;
        assert bytes[0..|bytes|] == bytes;
        cid := am.AddMtomBytes(bytes, 0, |bytes|, Some(mapping.mimeType), Some(lastFrag.localName), lastFrag.namespaceURI);
      } else if mapping.attributeClassification == DataHandlerClass {
        if !value.Handler? {
          return Err(ClassCast);
        }
        cid := am.AddMtomHandler(value.handler, Some(lastFrag.localName), lastFrag.namespaceURI);
      } else {
        var data := conversions.bytesForBinaryValue(value, mapping.mimeType);
        if data.None? {
          return Err(UnsupportedBinaryType);
        }
        var bytes := data.value.data;
        assert bytes[0..|bytes|] == bytes;
        cid := am.AddMtomBytes(bytes, 0, |bytes|, Some(data.value.mimeType), Some(lastFrag.localName), lastFrag.namespaceURI);
      }
      return Ok(cid);
    }

    /**
     * Write the Include element for content id `cid`. When the caller's
     * resolver is null or has no prefix for XOP, a new resolver declares the
     * default prefix and the declaration goes on the Include element only.
     */
    method WriteInclude(fragment: XPathFragment, record: MarshalRecord, cid: string, resolver: NamespaceResolver?)
      returns (current: NamespaceResolver?)
      modifies record
      ensures resolver != null ==> resolver.declarations == old(resolver.declarations)
      ensures var xop := XopNamespaceFor(old(ScopeOf(resolver)));
              && ScopeOf(current) == xop.scope
              && record.events == old(record.events) + IncludeElementEvents(fragment, xop, cid)
    {
      current := resolver;
      var xopPrefix: Option<string> := None;
      if resolver != null {
        xopPrefix := resolver.ResolveNamespaceURI(XOP_URL);
      }
      var addDeclaration := false;
      if xopPrefix.None? || resolver == null {
        addDeclaration := true;
        xopPrefix := Some(XOP_PREFIX);
        var local := new NamespaceResolver();
        local.Put(XOP_PREFIX, XOP_URL);
        assert local.declarations == [Binding(XOP_PREFIX, XOP_URL)];
        current := local;
      }
      var prefix := xopPrefix.value;
      record.OpenStartElement(IncludeFragment(prefix), current);
      record.AddAttribute("", "href", "href", cid);
      if addDeclaration {
        record.AddAttribute(XMLNS_URL, prefix, XMLNS + ":" + prefix, XOP_URL);
      }
      record.CloseStartElement();
      record.EndElement(fragment, current);
    }

    /** The inline branch: write the value as schema text. */
    method WriteInline(record: MarshalRecord, value: Value) returns (r: Result<(), MarshalError>)
      modifies record
      ensures var t := InlineText(mapping, conversions, value);
              && (t.Err? ==> r == Err(t.error) && record.events == old(record.events))
              && (t.Ok? ==> r == Ok(()) && record.events == old(record.events) + [Characters(t.value)])
    {
      var text: string;
      if value.Bytes? || value.BoxedBytes? {
        text := ValueToWrite(conversions, mapping.field.schemaType, value.bytes);
      } else {
        var data := conversions.bytesForBinaryValue(value, mapping.mimeType);
        if data.None? {
          return Err(UnsupportedBinaryType);
        }
        text := ValueToWrite(conversions, mapping.field.schemaType, data.value.data);
      }
      record.WriteCharacters(text);
      return Ok(());
    }

    /**
     * Start of the mapped element: the node is no longer pending as null-capable;
     * an attribute-borne value is assigned now; XOP content is handed to an
     * attachment handler.
     */
    method StartElement(fragment: XPathFragment, record: UnmarshalRecord, atts: Attributes)
      returns (r: Result<bool, DecodeError>)
      modifies record, record.currentObject
      ensures var a := StartActionOf(mapping, conversions, record.attachmentUnmarshaller, atts);
              && record.nullCapableValues == old(record.nullCapableValues) - {this}
              && record.stringBuffer == old(record.stringBuffer)
              && record.contentHandler == (if a.DelegateToAttachmentHandler? then AttachmentHandler(this) else old(record.contentHandler))
              && record.currentObject.assignments
                   == old(record.currentObject.assignments) + (if a.AssignOnStart? then [a.value] else [])
              && record.currentObject.binaryAttribute
                   == (if a.AssignOnStart? then a.value else old(record.currentObject.binaryAttribute))
              && r == (if a.StartFailure? then Err(a.error) else Ok(true))
    {
      record.RemoveNullCapableValue(this);
      var last := mapping.field.lastFragment;
      var um := record.attachmentUnmarshaller;
      if !mapping.isSwaRef && !mapping.shouldInlineBinaryData && !last.isAttribute {
        if um.Some? && um.value.isXOPPackage {
          record.SetContentHandler(AttachmentHandler(this));
        }
      } else if last.isAttribute {
        var text := atts.GetValue(last.namespaceURI, last.localName);
        var fieldValue: Value := Null;
        if mapping.isSwaRef {
          if um.Some? {
            if text.Some? {
              var found := AttachmentValue(mapping, um.value, text.value);
              if found.Err? {
                return Err(found.error);
              }
              fieldValue := found.value;
            }
            record.currentObject.SetAttributeValue(conversions.convertObject(fieldValue, mapping.attributeClassification));
          }
        } else {
          if text.Some? {
            var decoded := Base64Value(conversions, text.value);
            if decoded.Err? {
              return Err(decoded.error);
            }
            fieldValue := decoded.value;
          }
          record.currentObject.SetAttributeValue(conversions.convertObject(fieldValue, mapping.attributeClassification));
        }
      }
      return Ok(true);
    }

    /**
     * End of the mapped element: in the XOP case only the buffer is reset;
     * otherwise the buffered text is taken, the buffer reset, and the value
     * resolved, converted, coerced and assigned once.
     */
    method EndElement(fragment: XPathFragment, record: UnmarshalRecord) returns (r: Result<(), DecodeError>)
      modifies record, record.currentObject
      ensures var a := EndActionOf(mapping, conversions, record.attachmentUnmarshaller, old(record.stringBuffer));
              && record.stringBuffer == ""
              && record.contentHandler == old(record.contentHandler)
              && record.nullCapableValues
                   == (if a.ResetOnly? then old(record.nullCapableValues) else old(record.nullCapableValues) - {this})
              && record.currentObject.assignments
                   == old(record.currentObject.assignments) + (if a.AssignOnEnd? then [a.value] else [])
              && record.currentObject.binaryAttribute
                   == (if a.AssignOnEnd? then a.value else old(record.currentObject.binaryAttribute))
              && r == (if a.EndFailure? then Err(a.error) else Ok(()))
    {
      var um := record.attachmentUnmarshaller;
      if !mapping.shouldInlineBinaryData && !mapping.isSwaRef && um.Some? && um.value.isXOPPackage {
        record.ResetStringBuffer();
        return Ok(());
      }
      record.RemoveNullCapableValue(this);
      var text := record.stringBuffer;
      record.ResetStringBuffer();
      var value: Value;
      if mapping.isSwaRef && um.Some? {
        var found := AttachmentValue(mapping, um.value, text);
        if found.Err? {
          return Err(found.error);
        }
        value := found.value;
      } else {
        var decoded := Base64Value(conversions, text);
        if decoded.Err? {
          return Err(decoded.error);
        }
        value := decoded.value;
      }
      if mapping.converter.Some? {
        value := mapping.converter.value.toObjectValue(value);
      }
      value := conversions.convertObject(value, mapping.attributeClassification);
      record.currentObject.SetAttributeValue(value);
      return Ok(());
    }

    /** Give a never-populated attribute the mapping's value for a null field. */
    method SetNullValue(obj: DomainObject)
      modifies obj
      ensures obj.binaryAttribute == mapping.nullValue
      ensures obj.assignments == old(obj.assignments) + [mapping.nullValue]
    {
      obj.SetAttributeValue(mapping.nullValue);
    }
  }
}
