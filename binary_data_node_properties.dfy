/**
 * Properties of the binary-data node's encode and decode paths, stated over
 * the specification functions that its methods are proved to follow.
 */
module BinaryDataNodeProperties {
  import opened Wrappers
  import opened OxmTypes
  import opened OxmRecords
  import opened BinaryDataNode

  // ---------------------------------------------------------------------------
  // Element nesting and event counts
  // ---------------------------------------------------------------------------

  /** How an event changes the depth of open elements. */
  function Delta(e: Event): int
  {
    if e.OpenStart? then 1 else if e.End? then -1 else 0
  }

  /** Walking `events` from depth `from` never closes more than is open and ends at depth `to`. */
  predicate Walk(events: seq<Event>, from: int, to: int)
    decreases |events|
  {
    if events == [] then from == to
    else from + Delta(events[0]) >= 0 && Walk(events[1..], from + Delta(events[0]), to)
  }

  /** Every end matches an earlier start, and every start is ended. */
  predicate Balanced(events: seq<Event>)
  {
    Walk(events, 0, 0)
  }

  function OpenCount(events: seq<Event>): nat
  {
    if events == [] then 0 else (if events[0].OpenStart? then 1 else 0) + OpenCount(events[1..])
  }

  function TextCount(events: seq<Event>): nat
  {
    if events == [] then 0 else (if events[0].Characters? then 1 else 0) + TextCount(events[1..])
  }

  lemma {:induction false} WalkConcat(a: seq<Event>, b: seq<Event>, x: int, y: int, z: int)
    requires Walk(a, x, y) && Walk(b, y, z)
    ensures Walk(a + b, x, z)
  {
    if a == [] {
      assert a + b == b;
    } else {
      assert (a + b)[0] == a[0];
      assert (a + b)[1..] == a[1..] + b;
      WalkConcat(a[1..], b, x + Delta(a[0]), y, z);
    }
  }

  lemma {:induction false} CountConcat(a: seq<Event>, b: seq<Event>)
    ensures OpenCount(a + b) == OpenCount(a) + OpenCount(b)
    ensures TextCount(a + b) == TextCount(a) + TextCount(b)
  {
    if a == [] {
      assert a + b == b;
    } else {
      assert (a + b)[0] == a[0];
      assert (a + b)[1..] == a[1..] + b;
      CountConcat(a[1..], b);
    }
  }

  /** One event in front of a walk. */
  lemma Cons(e: Event, rest: seq<Event>, x: int, z: int)
    ensures OpenCount([e] + rest) == (if e.OpenStart? then 1 else 0) + OpenCount(rest)
    ensures TextCount([e] + rest) == (if e.Characters? then 1 else 0) + TextCount(rest)
    ensures x + Delta(e) >= 0 && Walk(rest, x + Delta(e), z) ==> Walk([e] + rest, x, z)
  {
    assert ([e] + rest)[0] == e;
    assert ([e] + rest)[1..] == rest;
  }

  /** The events of the owning element's open tag, after the grouping elements. */
  function Prologue(fragment: XPathFragment, scope: Scope): seq<Event>
  {
    [OpenStartGrouping(scope), CloseStartGrouping, OpenStart(fragment, scope), CloseStart]
  }

  lemma PrologueFacts(fragment: XPathFragment, scope: Scope)
    ensures Walk(Prologue(fragment, scope), 0, 1)
    ensures OpenCount(Prologue(fragment, scope)) == 1 && TextCount(Prologue(fragment, scope)) == 0
  {
    var e0, e1, e2, e3 := OpenStartGrouping(scope), CloseStartGrouping, OpenStart(fragment, scope), CloseStart;
    Cons(e3, [], 1, 1);
    Cons(e2, [e3], 0, 1);
    Cons(e1, [e2] + [e3], 0, 1);
    Cons(e0, [e1] + ([e2] + [e3]), 0, 1);
    assert Prologue(fragment, scope) == [e0] + ([e1] + ([e2] + [e3]));
  }

  lemma TextContentFacts(fragment: XPathFragment, scope: Scope, text: string)
    ensures Walk([Characters(text), End(fragment, scope)], 1, 0)
    ensures OpenCount([Characters(text), End(fragment, scope)]) == 0
    ensures TextCount([Characters(text), End(fragment, scope)]) == 1
  {
    Cons(End(fragment, scope), [], 0, 0);
    Cons(Characters(text), [End(fragment, scope)], 1, 0);
    assert [Characters(text), End(fragment, scope)] == [Characters(text)] + [End(fragment, scope)];
  }

  lemma XopContentFacts(fragment: XPathFragment, xop: XopNamespace, cid: string)
    ensures var c := IncludeElementEvents(fragment, xop, cid) + [End(fragment, xop.scope)];
            Walk(c, 1, 0) && OpenCount(c) == 1 && TextCount(c) == 0
  {
    var open, href := OpenStart(IncludeFragment(xop.prefix), xop.scope), Attribute("", "href", "href", cid);
    var decl := if xop.addDeclaration then [Attribute(XMLNS_URL, xop.prefix, XMLNS + ":" + xop.prefix, XOP_URL)] else [];
    var close, end := CloseStart, End(fragment, xop.scope);
    // the tail, built from the back
    Cons(end, [], 1, 0);
    Cons(end, [end], 2, 0);
    Cons(close, [end] + [end], 2, 0);
    var tail := [close] + ([end] + [end]);
    if xop.addDeclaration {
      Cons(decl[0], tail, 2, 0);
      assert decl + tail == [decl[0]] + tail;
    } else {
      assert decl + tail == tail;
    }
    Cons(href, decl + tail, 2, 0);
    Cons(open, [href] + (decl + tail), 1, 0);
    assert IncludeElementEvents(fragment, xop, cid) + [end] == [open] + ([href] + (decl + tail));
  }

  // ---------------------------------------------------------------------------
  // Encode path
  // ---------------------------------------------------------------------------

  /** A read-only mapping writes nothing, registers nothing and answers false. */
  lemma MarshalReadOnly(mapping: BinaryDataMapping, conversions: Conversions, fragment: XPathFragment,
                        value: Value, scope: Scope, attachments: Option<AttachmentView>)
    requires mapping.isReadOnly
    ensures MarshalSpec(mapping, conversions, fragment, value, scope, attachments) == MarshalOutcome(Ok(false), [], None)
  {
  }

  /** A value that is null after conversion opens and closes the grouping elements only, and answers true. */
  lemma MarshalNullValue(mapping: BinaryDataMapping, conversions: Conversions, fragment: XPathFragment,
                         value: Value, scope: Scope, attachments: Option<AttachmentView>)
    requires !mapping.isReadOnly && DataValue(mapping, value).Null?
    ensures MarshalSpec(mapping, conversions, fragment, value, scope, attachments)
              == MarshalOutcome(Ok(true), [OpenStartGrouping(scope), CloseStartGrouping], None)
  {
  }

  /** The encodings in priority order: swaRef, then XOP, then inline; exactly one is chosen. */
  lemma EncodingPriority(mapping: BinaryDataMapping, attachments: Option<AttachmentView>)
    ensures EncodingFor(mapping, attachments) == SwaRefEncoding <==> mapping.isSwaRef && attachments.Some?
    ensures EncodingFor(mapping, attachments) == XopEncoding <==>
              !mapping.isSwaRef && attachments.Some? && attachments.value.isXOPPackage && !mapping.shouldInlineBinaryData
    ensures EncodingFor(mapping, attachments) == InlineEncoding <==>
              attachments.None? || (!mapping.isSwaRef && (!attachments.value.isXOPPackage || mapping.shouldInlineBinaryData))
  {
  }

  /** swaRef: open tag, the content id as text, close tag; the attachment is registered under that id. */
  lemma MarshalSwaRefTrace(mapping: BinaryDataMapping, conversions: Conversions, fragment: XPathFragment,
                           value: Value, scope: Scope, attachments: Option<AttachmentView>)
    requires !mapping.isReadOnly && !DataValue(mapping, value).Null?
    requires EncodingFor(mapping, attachments) == SwaRefEncoding
    requires SwaRefAttachment(mapping, conversions, DataValue(mapping, value)).Ok?
    ensures var o := MarshalSpec(mapping, conversions, fragment, value, scope, attachments);
            && o.result == Ok(true)
            && o.events == Prologue(fragment, scope) + [Characters(attachments.value.nextContentId), End(fragment, scope)]
            && o.attachment == Some(SwaRefAttachment(mapping, conversions, DataValue(mapping, value)).value)
  {
  }

  /** Inline: open tag, the schema text of the bytes, close tag; nothing is registered. */
  lemma MarshalInlineTrace(mapping: BinaryDataMapping, conversions: Conversions, fragment: XPathFragment,
                           value: Value, scope: Scope, attachments: Option<AttachmentView>)
    requires !mapping.isReadOnly && !DataValue(mapping, value).Null?
    requires EncodingFor(mapping, attachments) == InlineEncoding
    requires InlineText(mapping, conversions, DataValue(mapping, value)).Ok?
    ensures var o := MarshalSpec(mapping, conversions, fragment, value, scope, attachments);
            && o.result == Ok(true)
            && o.events == Prologue(fragment, scope)
                           + [Characters(InlineText(mapping, conversions, DataValue(mapping, value)).value), End(fragment, scope)]
            && o.attachment.None?
  {
  }

  /**
   * XOP: open tag, an Include element whose href is the content id (with an
   * xmlns declaration when the scope had no XOP prefix), then two end tags
   * written with the Include element's scope.
   */
  lemma MarshalXopTrace(mapping: BinaryDataMapping, conversions: Conversions, fragment: XPathFragment,
                        value: Value, scope: Scope, attachments: Option<AttachmentView>)
    requires !mapping.isReadOnly && !DataValue(mapping, value).Null?
    requires EncodingFor(mapping, attachments) == XopEncoding
    requires XopAttachment(mapping, conversions, DataValue(mapping, value)).Ok?
    ensures var o := MarshalSpec(mapping, conversions, fragment, value, scope, attachments);
            var xop := XopNamespaceFor(scope);
            && o.result == Ok(true)
            && o.events == Prologue(fragment, scope)
                           + [OpenStart(IncludeFragment(xop.prefix), xop.scope),
                              Attribute("", "href", "href", attachments.value.nextContentId)]
                           + (if xop.addDeclaration then [Attribute(XMLNS_URL, XOP_PREFIX, "xmlns:xop", XOP_URL)] else [])
                           + [CloseStart, End(fragment, xop.scope), End(fragment, xop.scope)]
            && o.attachment == Some(XopAttachment(mapping, conversions, DataValue(mapping, value)).value)
  {
    var xop := XopNamespaceFor(scope);
    assert xop.addDeclaration ==> XMLNS + ":" + xop.prefix == "xmlns:xop";
  }

  /** On success every start tag written is ended, in nesting order. */
  lemma MarshalBalanced(mapping: BinaryDataMapping, conversions: Conversions, fragment: XPathFragment,
                        value: Value, scope: Scope, attachments: Option<AttachmentView>)
    requires MarshalSpec(mapping, conversions, fragment, value, scope, attachments).result.Ok?
    ensures Balanced(MarshalSpec(mapping, conversions, fragment, value, scope, attachments).events)
  {
    var o := MarshalSpec(mapping, conversions, fragment, value, scope, attachments);
    if mapping.isReadOnly {
    } else if DataValue(mapping, value).Null? {
      assert o.events[1..] == [CloseStartGrouping];
    } else {
      var v := DataValue(mapping, value);
      var c := ContentSpec(mapping, conversions, fragment, v, scope, attachments);
      PrologueFacts(fragment, scope);
      match EncodingFor(mapping, attachments) {
        case SwaRefEncoding =>
          TextContentFacts(fragment, scope, attachments.value.nextContentId);
        case InlineEncoding =>
          TextContentFacts(fragment, scope, InlineText(mapping, conversions, v).value);
        case XopEncoding =>
          XopContentFacts(fragment, XopNamespaceFor(scope), attachments.value.nextContentId);
      }
      assert o.events == Prologue(fragment, scope) + c.events;
      WalkConcat(Prologue(fragment, scope), c.events, 0, 1, 0);
    }
  }

  /**
   * Exactly one encoding runs for a non-null value: XOP writes two start tags
   * and no text, swaRef and inline one start tag and one text event, and an
   * attachment is registered exactly when the encoding is not inline.
   */
  lemma MarshalExactlyOneEncoding(mapping: BinaryDataMapping, conversions: Conversions, fragment: XPathFragment,
                                  value: Value, scope: Scope, attachments: Option<AttachmentView>)
    requires !mapping.isReadOnly && !DataValue(mapping, value).Null?
    requires MarshalSpec(mapping, conversions, fragment, value, scope, attachments).result.Ok?
    ensures var o := MarshalSpec(mapping, conversions, fragment, value, scope, attachments);
            var e := EncodingFor(mapping, attachments);
            && OpenCount(o.events) == (if e == XopEncoding then 2 else 1)
            && TextCount(o.events) == (if e == XopEncoding then 0 else 1)
            && (o.attachment.Some? <==> e != InlineEncoding)
  {
    var v := DataValue(mapping, value);
    var c := ContentSpec(mapping, conversions, fragment, v, scope, attachments);
    assert MarshalSpec(mapping, conversions, fragment, value, scope, attachments).events == Prologue(fragment, scope) + c.events;
    PrologueFacts(fragment, scope);
    match EncodingFor(mapping, attachments) {
      case SwaRefEncoding =>
        TextContentFacts(fragment, scope, attachments.value.nextContentId);
      case InlineEncoding =>
        TextContentFacts(fragment, scope, InlineText(mapping, conversions, v).value);
      case XopEncoding =>
        XopContentFacts(fragment, XopNamespaceFor(scope), attachments.value.nextContentId);
    }
    CountConcat(Prologue(fragment, scope), c.events);
  }

  /** A failure leaves the owning element open, registers nothing, and happens only after the open tag. */
  lemma MarshalFailureLeavesElementOpen(mapping: BinaryDataMapping, conversions: Conversions, fragment: XPathFragment,
                                        value: Value, scope: Scope, attachments: Option<AttachmentView>)
    requires MarshalSpec(mapping, conversions, fragment, value, scope, attachments).result.Err?
    ensures var o := MarshalSpec(mapping, conversions, fragment, value, scope, attachments);
            && !mapping.isReadOnly && !DataValue(mapping, value).Null?
            && o.events == Prologue(fragment, scope)
            && o.attachment.None?
  {
  }

  /** The text for base64Binary decodes back to the same bytes, given a base64 codec that round-trips. */
  lemma ValueToWriteRoundTrip(conversions: Conversions, bytes: seq<byte>)
    requires forall b :: conversions.base64ToBytes(conversions.base64Text(b)) == Some(b)
    ensures Base64Value(conversions, ValueToWrite(conversions, Base64Binary, bytes)) == Ok(Bytes(bytes))
  {
  }

  /** The path view of isOwningNode: a step owns its node exactly when it is last or followed by an attribute step. */
  lemma OwningStepsOfPath(fragment: XPathFragment)
    ensures var steps := Steps(fragment);
            forall i :: 0 <= i < |steps| ==>
              (IsOwningNode(steps[i]) <==> i == |steps| - 1 || steps[i + 1].isAttribute)
  {
  }

  // ---------------------------------------------------------------------------
  // Decode path
  // ---------------------------------------------------------------------------

  /** For an attribute-borne field, startElement never delegates; it assigns unless swaRef has no unmarshaller. */
  lemma StartAttributeBorne(mapping: BinaryDataMapping, conversions: Conversions,
                            attachments: Option<AttachmentUnmarshaller>, atts: Attributes)
    requires mapping.field.lastFragment.isAttribute
    ensures var a := StartActionOf(mapping, conversions, attachments, atts);
            && !a.DelegateToAttachmentHandler?
            && (a.NoAction? <==> mapping.isSwaRef && attachments.None?)
            && (a.AssignOnStart? || a.StartFailure? || a.NoAction?)
  {
  }

  /** An attribute-borne inline value is the coerced base64 decoding of the attribute text. */
  lemma StartAttributeBase64(mapping: BinaryDataMapping, conversions: Conversions,
                             attachments: Option<AttachmentUnmarshaller>, atts: Attributes, bytes: seq<byte>)
    requires mapping.field.lastFragment.isAttribute && !mapping.isSwaRef
    requires var last := mapping.field.lastFragment;
             var text := atts.GetValue(last.namespaceURI, last.localName);
             text.Some? && conversions.base64ToBytes(text.value) == Some(bytes)
    ensures StartActionOf(mapping, conversions, attachments, atts)
              == AssignOnStart(conversions.convertObject(Bytes(bytes), mapping.attributeClassification))
  {
  }

  /** For element content, startElement assigns nothing: it delegates exactly in the XOP case. */
  lemma StartElementContent(mapping: BinaryDataMapping, conversions: Conversions,
                            attachments: Option<AttachmentUnmarshaller>, atts: Attributes)
    requires !mapping.field.lastFragment.isAttribute
    ensures var a := StartActionOf(mapping, conversions, attachments, atts);
            && (a.DelegateToAttachmentHandler? <==> IsXopDecode(mapping, attachments))
            && (a.DelegateToAttachmentHandler? || a.NoAction?)
  {
  }

  /** No double assignment: once startElement has delegated, endElement only resets the buffer, whatever the text. */
  lemma NoDoubleAssignment(mapping: BinaryDataMapping, conversions: Conversions,
                           attachments: Option<AttachmentUnmarshaller>, atts: Attributes, text: string)
    requires StartActionOf(mapping, conversions, attachments, atts).DelegateToAttachmentHandler?
    ensures EndActionOf(mapping, conversions, attachments, text) == ResetOnly
  {
  }

  /**
   * endElement's three ways: reset only in the XOP case; attachment lookup for
   * swaRef with an unmarshaller; base64 decoding otherwise, swaRef without an
   * unmarshaller included. Each assigning way assigns the coerced, converted value.
   */
  lemma EndActionCases(mapping: BinaryDataMapping, conversions: Conversions,
                       attachments: Option<AttachmentUnmarshaller>, text: string)
    ensures var a := EndActionOf(mapping, conversions, attachments, text);
            var finish := (v: Value) => conversions.convertObject(ObjectValue(mapping, v), mapping.attributeClassification);
            && (a == ResetOnly <==> IsXopDecode(mapping, attachments))
            && (mapping.isSwaRef && attachments.Some? ==>
                  match AttachmentValue(mapping, attachments.value, text)
                  case Err(e) => a == EndFailure(e)
                  case Ok(v) => a == AssignOnEnd(finish(v)))
            && (!IsXopDecode(mapping, attachments) && !(mapping.isSwaRef && attachments.Some?) ==>
                  match conversions.base64ToBytes(text)
                  case None => a == EndFailure(MalformedBase64(text))
                  case Some(b) => a == AssignOnEnd(finish(Bytes(b))))
  {
  }

  /**
   * Inline round trip: with swaRef and XOP off on both sides, a value whose
   * converted form is a byte[] and which the converter gives back from that
   * byte[] (any value, when there is no converter) is written as text that
   * endElement decodes into the same value, coerced to the attribute's class.
   */
  lemma InlineRoundTrip(mapping: BinaryDataMapping, conversions: Conversions, fragment: XPathFragment,
                        value: Value, scope: Scope, attachments: Option<AttachmentView>,
                        unmarshaller: Option<AttachmentUnmarshaller>)
    requires forall b :: conversions.base64ToBytes(conversions.base64Text(b)) == Some(b)
    requires !mapping.isReadOnly && !mapping.isSwaRef
    requires DataValue(mapping, value).Bytes? && ObjectValue(mapping, DataValue(mapping, value)) == value
    requires mapping.field.schemaType == Base64Binary
    requires EncodingFor(mapping, attachments) == InlineEncoding
    requires !IsXopDecode(mapping, unmarshaller)
    ensures var o := MarshalSpec(mapping, conversions, fragment, value, scope, attachments);
            && o.events[4].Characters?
            && EndActionOf(mapping, conversions, unmarshaller, o.events[4].text)
                 == AssignOnEnd(conversions.convertObject(value, mapping.attributeClassification))
  {
  }

  /**
   * swaRef round trip: the content id written for a DataHandler resolves, on
   * an unmarshaller holding the registered attachment under that id, to the
   * same DataHandler.
   */
  lemma SwaRefRoundTrip(mapping: BinaryDataMapping, conversions: Conversions, fragment: XPathFragment,
                        handler: DataHandler, scope: Scope, attachments: AttachmentView,
                        unmarshaller: AttachmentUnmarshaller)
    requires !mapping.isReadOnly && mapping.isSwaRef && mapping.converter.None?
    requires mapping.attributeClassification == DataHandlerClass
    requires attachments.nextContentId in unmarshaller.parts && unmarshaller.parts[attachments.nextContentId] == handler
    ensures var o := MarshalSpec(mapping, conversions, fragment, Handler(handler), scope, Some(attachments));
            && o.attachment == Some(SwaRefHandler(handler))
            && o.events[4] == Characters(attachments.nextContentId)
            && EndActionOf(mapping, conversions, Some(unmarshaller), o.events[4].text)
                 == AssignOnEnd(conversions.convertObject(Handler(handler), DataHandlerClass))
  {
  }

  // ---------------------------------------------------------------------------
  // The byte[] XOP registration
  // ---------------------------------------------------------------------------

  /**
   * As written, a byte[] value registered for XOP carries the element's local
   * name as its MIME type: for the bytes 1, 2, 3 of a field named "field" with
   * MIME type application/octet-stream, the MIME type recorded is "field".
   */
  lemma XopBytesMimeTypeAsWritten(conversions: Conversions)
    ensures var last := XPathFragment("field", "field", None, false, None);
            var mapping := BinaryDataMapping(false, false, false, ByteArrayClass, None, XmlField(last, Base64Binary),
                                             "application/octet-stream", Null);
            var a := XopAttachmentAsWritten(mapping, conversions, Bytes([1, 2, 3]));
            && a == Ok(MtomBytes([1, 2, 3], Some("field"), None, None))
            && a.value.mimeType != Some(mapping.mimeType)
            && a != XopAttachment(mapping, conversions, Bytes([1, 2, 3]))
  {
  }

  /**
   * Corrected: a byte[] value is registered with the mapping's MIME type, the
   * element's local name and its namespace, exactly as the same bytes reached
   * through the binary-data helper would be.
   */
  lemma XopBytesRegisteredLikeHelperBytes(mapping: BinaryDataMapping, conversions: Conversions, bytes: seq<byte>, other: Value)
    requires !other.Bytes? && mapping.attributeClassification != DataHandlerClass
    requires conversions.bytesForBinaryValue(other, mapping.mimeType) == Some(EncodedData(bytes, mapping.mimeType))
    ensures var last := mapping.field.lastFragment;
            && XopAttachment(mapping, conversions, Bytes(bytes))
                 == Ok(MtomBytes(bytes, Some(mapping.mimeType), Some(last.localName), last.namespaceURI))
            && XopAttachment(mapping, conversions, Bytes(bytes)) == XopAttachment(mapping, conversions, other)
  {
  }
}
