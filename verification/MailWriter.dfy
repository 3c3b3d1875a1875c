/**
 The mail builder as it runs: a multipart writer appending to one shared buffer, a second
 writer nested in its first part, and the loop that cuts base64 into lines.
 */
module MailWriter {
  import opened Base64
  import opened CrlfText
  import opened Mailer
  import opened Multipart
  import opened Wrappers

  class Buffer {
    var text: string

    constructor ()
      ensures text == ""
    {
      text := "";
    }

    method Write(s: string)
      modifies this
      ensures text == old(text) + s
    {
      text := text + s;
    }
  }

  // multipart.Writer: a nested writer shares the buffer of the part it writes into.
  class MultipartWriter {
    const out: Buffer
    const boundary: string
    var started: bool

    constructor (out: Buffer, boundary: string)
      ensures this.out == out && this.boundary == boundary && !started
    {
      this.out := out;
      this.boundary := boundary;
      this.started := false;
    }

    method CreatePart(fields: seq<Field>)
      modifies this, out
      ensures started
      ensures out.text == old(out.text) + Terminated(PartHead(old(started), boundary, fields))
      ensures out.text == old(out.text) + ((if old(started) then "\r\n" else "")
        + ("--" + boundary + "\r\n") + Terminated(FieldLines(fields)) + "\r\n")
    {
      PartHeadIs(started, boundary, fields);
      hide Terminated;
      if started {
        out.Write(CRLF);
      }
      out.Write(Delimiter(boundary) + CRLF);
      TerminatedSmall(boundary);
      assert FieldLines([]) == [];
      assert PartTop(old(started), boundary) + FieldLines(fields[..0]) == PartTop(old(started), boundary);
      for i := 0 to |fields|
        invariant out.text == old(out.text) + Terminated(PartTop(old(started), boundary) + FieldLines(fields[..i]))
      {
        out.Write(FieldLine(fields[i]) + CRLF);
        TerminatedAppend(PartTop(old(started), boundary) + FieldLines(fields[..i]), FieldLine(fields[i]));
        assert PartTop(old(started), boundary) + FieldLines(fields[..i + 1])
            == PartTop(old(started), boundary) + FieldLines(fields[..i]) + [FieldLine(fields[i])];
      }
      assert fields[..|fields|] == fields;
      TerminatedAppend(PartTop(old(started), boundary) + FieldLines(fields), "");
      out.Write(CRLF);
      assert "" + CRLF == CRLF;
      started := true;
    }

    method Close()
      modifies out
      ensures out.text == old(out.text) + Terminated(["", CloseDelimiter(boundary)])
      ensures out.text == old(out.text) + ("\r\n" + ("--" + boundary + "--") + "\r\n")
    {
      TerminatedSmall(boundary);
      out.Write(CRLF + CloseDelimiter(boundary) + CRLF);
    }
  }

  function PartTop(started: bool, boundary: string): seq<string> {
    (if started then [""] else []) + [Delimiter(boundary)]
  }

  // The lines that open a part; a later part starts on a fresh line.
  function PartHead(started: bool, boundary: string, fields: seq<Field>): seq<string> {
    PartTop(started, boundary) + FieldLines(fields) + [""]
  }

  lemma TerminatedSmall(boundary: string)
    ensures Terminated(PartTop(false, boundary)) == Delimiter(boundary) + CRLF
    ensures Terminated(PartTop(true, boundary)) == CRLF + (Delimiter(boundary) + CRLF)
    ensures Terminated(["", CloseDelimiter(boundary)]) == CRLF + CloseDelimiter(boundary) + CRLF
  {
    var first, close := Delimiter(boundary), CloseDelimiter(boundary);
    assert Terminated([]) == "";
    assert Terminated([first]) == first + CRLF;
    assert Terminated([close]) == close + CRLF;
    assert PartTop(true, boundary)[1..] == [first] && PartTop(false, boundary) == [first];
    assert ["", close][1..] == [close];
    assert Terminated(["", close]) == "" + CRLF + Terminated([close]);
    assert Terminated(PartTop(true, boundary)) == "" + CRLF + Terminated([first]);
  }

  lemma PartHeadIs(started: bool, boundary: string, fields: seq<Field>)
    ensures Terminated(PartHead(started, boundary, fields))
         == (if started then "\r\n" else "") + ("--" + boundary + "\r\n") + Terminated(FieldLines(fields)) + "\r\n"
  {
    TerminatedSmall(boundary);
    TerminatedConcat(PartTop(started, boundary), FieldLines(fields));
    TerminatedAppend(PartTop(started, boundary) + FieldLines(fields), "");
    assert "" + CRLF == CRLF;
    hide Terminated, FieldLines;
  }

  lemma TerminatedAppend(lines: seq<string>, line: string)
    ensures Terminated(lines + [line]) == Terminated(lines) + (line + CRLF)
  {
    TerminatedConcat(lines, [line]);
    assert Terminated([line]) == line + CRLF;
  }

  /** Base64 in lines of 76 characters, the last one possibly shorter. */
  method WriteBase64(w: Buffer, data: seq<Byte>)
    modifies w
    ensures w.text == old(w.text) + Terminated(Lines76(Encode(data)))
  {
    var enc := Encode(data);
    while |enc| > 76
      invariant w.text + Terminated(Lines76(enc)) == old(w.text) + Terminated(Lines76(Encode(data)))
    {
      assert Terminated(Lines76(enc)) == enc[..76] + CRLF + Terminated(Lines76(enc[76..]));
      w.Write(enc[..76] + CRLF);
      enc := enc[76..];
    }
    assert Terminated([enc]) == enc + CRLF;
    w.Write(enc + CRLF);
  }

  // Which check refuses the message, in the order the builder makes them.
  function Refusal(from: string, e: Email, recipientParses: bool): Option<MailError> {
    if !NoBreaks(from) then Some(LineBreak("from"))
    else if !NoBreaks(e.to) then Some(LineBreak("to"))
    else if !recipientParses then Some(InvalidRecipient)
    else if exists a | a in e.attachments :: !NoBreaks(a.filename) then Some(LineBreak("attachment filename"))
    else None
  }

  method WriteLeaf(
    w: MultipartWriter, fields: seq<Field>, data: seq<Byte>, ghost base: string, ghost parts: seq<RawPart>)
    requires w.started <==> parts != []
    requires w.out.text == base + Terminated(OpenLines(w.boundary, parts))
    modifies w, w.out
    ensures w.started
    ensures w.out.text == base + Terminated(OpenLines(w.boundary, parts + [LeafPart(fields, data)]))
  {
    hide Encode, Lines76, OpenLines, PartHead, Terminated;
    PartAppended(w.boundary, parts, LeafPart(fields, data));
    w.CreatePart(fields);
    WriteBase64(w.out, data);
  }

  lemma PartAppended(boundary: string, parts: seq<RawPart>, part: RawPart)
    ensures Terminated(OpenLines(boundary, parts + [part]))
         == Terminated(OpenLines(boundary, parts))
            + (Terminated(PartHead(parts != [], boundary, part.fields)) + Terminated(part.content))
  {
    hide Terminated;
    OpenLinesAppend(boundary, parts, part);
    var head := PartHead(parts != [], boundary, part.fields);
    TerminatedConcat(head, part.content);
    TerminatedConcat(OpenLines(boundary, parts), head + part.content);
    assert OpenLines(boundary, parts + [part]) == OpenLines(boundary, parts) + (head + part.content);
  }

  lemma NextBody(bodies: seq<Body>, i: nat)
    requires i < |bodies|
    ensures BodyParts(bodies[..i + 1])
         == if bodies[i].1 == [] then BodyParts(bodies[..i])
            else BodyParts(bodies[..i]) + [LeafPart(BodyFields(bodies[i].0), bodies[i].1)]
  {
    assert bodies[..i + 1][..i] == bodies[..i];
  }

  lemma NothingWritten(boundary: string)
    ensures BodyParts([]) == [] && Terminated(OpenLines(boundary, [])) == ""
  {
  }

  // The loop over the two bodies: an empty one is skipped.
  method WriteBodies(alt: MultipartWriter, bodies: seq<Body>, ghost base: string)
    requires !alt.started && alt.out.text == base
    modifies alt, alt.out
    ensures alt.out.text == base + Terminated(MultipartLines(alt.boundary, BodyParts(bodies)))
  {
    hide Encode, Lines76, LeafPart, OpenLines, Terminated, BodyParts, BodyFields, MultipartLines;
    NothingWritten(alt.boundary);
    assert bodies[..0] == [];
    for i := 0 to |bodies|
      invariant alt.started <==> BodyParts(bodies[..i]) != []
      invariant alt.out.text == base + Terminated(OpenLines(alt.boundary, BodyParts(bodies[..i])))
    {
      NextBody(bodies, i);
      if bodies[i].1 != [] {
        WriteLeaf(alt, BodyFields(bodies[i].0), bodies[i].1, base, BodyParts(bodies[..i]));
      }
    }
    assert bodies[..|bodies|] == bodies;
    alt.Close();
    ClosedLines(alt.boundary, BodyParts(bodies));
  }

  lemma ClosedLines(boundary: string, parts: seq<RawPart>)
    ensures Terminated(MultipartLines(boundary, parts))
         == Terminated(OpenLines(boundary, parts)) + Terminated(["", CloseDelimiter(boundary)])
  {
    TerminatedConcat(OpenLines(boundary, parts), ["", CloseDelimiter(boundary)]);
  }

  // The loop over the attachments: the first file name with a line break stops it.
  method WriteAttachments(mixed: MultipartWriter, attachments: seq<Attachment>, ghost first: RawPart)
    returns (ok: bool)
    requires mixed.started && mixed.out.text == Terminated(OpenLines(mixed.boundary, [first]))
    modifies mixed, mixed.out
    ensures ok <==> forall a | a in attachments :: NoBreaks(a.filename)
    ensures ok ==>
      mixed.out.text == Terminated(MultipartLines(mixed.boundary, [first] + AttachmentParts(attachments)))
  {
    hide Encode, Lines76, OpenLines, Terminated;
    assert [first] + AttachmentParts(attachments[..0]) == [first];
    for i := 0 to |attachments|
      invariant forall a | a in attachments[..i] :: NoBreaks(a.filename)
      invariant mixed.started
      invariant mixed.out.text
             == Terminated(OpenLines(mixed.boundary, [first] + AttachmentParts(attachments[..i])))
    {
      var a := attachments[i];
      if !NoBreaks(a.filename) {
        return false;
      }
      WriteLeaf(mixed, AttachmentFields(a), a.data, "", [first] + AttachmentParts(attachments[..i]));
      assert [first] + AttachmentParts(attachments[..i + 1])
          == [first] + AttachmentParts(attachments[..i]) + [LeafPart(AttachmentFields(a), a.data)];
    }
    assert attachments[..|attachments|] == attachments;
    mixed.Close();
    TerminatedConcat(
      OpenLines(mixed.boundary, [first] + AttachmentParts(attachments)), ["", CloseDelimiter(mixed.boundary)]);
    return true;
  }

  lemma AlternativeIsFirst(e: Email, env: Envelope)
    ensures Terminated(OpenLines(env.mixedBoundary, [AlternativePart(e, env)]))
         == Terminated(PartHead(false, env.mixedBoundary, AlternativeFields(env)))
            + Terminated(MultipartLines(env.altBoundary, BodyParts(Bodies(e))))
  {
    TerminatedConcat(
      PartHead(false, env.mixedBoundary, AlternativeFields(env)),
      MultipartLines(env.altBoundary, BodyParts(Bodies(e))));
    assert OpenLines(env.mixedBoundary, [AlternativePart(e, env)])
        == PartHead(false, env.mixedBoundary, AlternativeFields(env))
           + MultipartLines(env.altBoundary, BodyParts(Bodies(e)));
  }

  // The nested writers: the alternative part first, then the attachments.
  method WriteMixed(e: Email, env: Envelope) returns (ok: bool, text: string)
    ensures ok <==> forall a | a in e.attachments :: NoBreaks(a.filename)
    ensures ok ==> text == Terminated(MultipartLines(env.mixedBoundary, MixedParts(e, env)))
  {
    hide Encode, Lines76, OpenLines, Terminated, BodyParts, AttachmentParts, FieldLines;
    var buf := new Buffer();
    var mixed := new MultipartWriter(buf, env.mixedBoundary);
    mixed.CreatePart(AlternativeFields(env));
    var alt := new MultipartWriter(buf, env.altBoundary);
    WriteBodies(alt, Bodies(e), buf.text);
    AlternativeIsFirst(e, env);
    ok := WriteAttachments(mixed, e.attachments, AlternativePart(e, env));
    text := buf.text;
  }

  /**
   Builds the message, or refuses it. What is built reads back as what was to be sent.
   recipientParses is the answer of mail.ParseAddress for the recipient.
   */
  method BuildMessage(from: string, e: Email, env: Envelope, recipientParses: bool)
    returns (r: Result<string, MailError>)
    requires GoodEnvelope(env) && GoodMediaTypes(e)
    ensures r.Ok? <==>
      && '\r' !in from && '\n' !in from && '\r' !in e.to && '\n' !in e.to && recipientParses
      && forall a | a in e.attachments :: '\r' !in a.filename && '\n' !in a.filename
    ensures '\r' in from || '\n' in from ==> r == Err(LineBreak("from"))
    ensures NoBreaks(from) && ('\r' in e.to || '\n' in e.to) ==> r == Err(LineBreak("to"))
    ensures NoBreaks(from) && NoBreaks(e.to) && !recipientParses ==> r == Err(InvalidRecipient)
    ensures NoBreaks(from) && NoBreaks(e.to) && recipientParses && r.Err? ==> r == Err(LineBreak("attachment filename"))
    ensures r.Err? <==> Refusal(from, e, recipientParses).Some?
    ensures r.Err? ==> Refusal(from, e, recipientParses) == Some(r.error)
    ensures r.Ok? ==> r.value == Terminated(MessageLines(from, e, env))
    ensures r.Ok? ==> Read(r.value) == Some(Sent(from, e, env))
  {
    if !NoBreaks(from) {
      return Err(LineBreak("from"));
    }
    if !NoBreaks(e.to) {
      return Err(LineBreak("to"));
    }
    if !recipientParses {
      return Err(InvalidRecipient);
    }
    hide Read, Sent, MultipartLines, MixedParts, FieldLines, Terminated;
    var head := WriteHead(HeaderFields(from, e, env));
    var ok, text := WriteMixed(e, env);
    if !ok {
      return Err(LineBreak("attachment filename"));
    }
    TerminatedConcat(
      FieldLines(HeaderFields(from, e, env)) + [""], MultipartLines(env.mixedBoundary, MixedParts(e, env)));
    MessageReadsBack(from, e, env);
    r := Ok(head + text);
  }

  method WriteHead(fields: seq<Field>) returns (head: string)
    ensures head == Terminated(FieldLines(fields) + [""])
  {
    head := "";
    assert FieldLines(fields[..0]) == [];
    for i := 0 to |fields|
      invariant head == Terminated(FieldLines(fields[..i]))
    {
      TerminatedAppend(FieldLines(fields[..i]), FieldLine(fields[i]));
      assert FieldLines(fields[..i + 1]) == FieldLines(fields[..i]) + [FieldLine(fields[i])];
      head := head + (FieldLine(fields[i]) + CRLF);
    }
    assert fields[..|fields|] == fields;
    TerminatedAppend(FieldLines(fields), "");
    head := head + CRLF;
  }
}
