/**
 The mail builder: a multipart/mixed message holding a multipart/alternative of the text and
 HTML bodies, then the attachments, every leaf in base64 lines of at most 76 characters.
 What the builder makes is read back by an independent reader (Read).
 */
module Mailer {
  import opened Base64
  import opened CrlfText
  import opened Multipart
  import opened Wrappers

  // mediaType and disposition are the header values mime.FormatMediaType makes for the attachment.
  datatype Attachment = Attachment(filename: string, mediaType: string, disposition: string, data: seq<Byte>)

  datatype Email = Email(to: string, text: seq<Byte>, html: seq<Byte>, attachments: seq<Attachment>)

  // Values other libraries make: the Q-encoded subject, the date, the random ID and boundaries.
  datatype Envelope = Envelope(
    subject: string, date: string, messageId: string, mixedBoundary: string, altBoundary: string)

  datatype MailError = LineBreak(header: string) | InvalidRecipient

  type Body = (string, seq<Byte>)

  predicate IsBoundary(b: string) {
    forall c | c in b :: '0' <= c <= '9' || 'a' <= c <= 'f'
  }

  ghost predicate GoodEnvelope(env: Envelope) {
    && NoBreaks(env.subject) && NoBreaks(env.date) && NoBreaks(env.messageId)
    && IsBoundary(env.mixedBoundary) && IsBoundary(env.altBoundary)
    && |env.mixedBoundary| == |env.altBoundary|
    && env.mixedBoundary != env.altBoundary
  }

  ghost predicate GoodMediaTypes(e: Email) {
    forall a | a in e.attachments :: NoBreaks(a.mediaType) && NoBreaks(a.disposition)
  }

  // ------------------------------------------------------------ the headers of every entity

  function HeaderFields(from: string, e: Email, env: Envelope): seq<Field> {
    [ Field("From", from),
      Field("To", e.to),
      Field("Subject", env.subject),
      Field("Date", env.date),
      Field("Message-ID", env.messageId),
      Field("MIME-Version", "1.0"),
      Field("Content-Type", "multipart/mixed; boundary=\"" + env.mixedBoundary + "\"") ]
  }

  function AlternativeFields(env: Envelope): seq<Field> {
    [Field("Content-Type", "multipart/alternative; boundary=\"" + env.altBoundary + "\"")]
  }

  const BASE64_FIELD := Field("Content-Transfer-Encoding", "base64")

  // The multipart writer sorts a part's headers by name.
  function BodyFields(contentType: string): seq<Field> {
    [BASE64_FIELD, Field("Content-Type", contentType)]
  }

  function AttachmentFields(a: Attachment): seq<Field> {
    [Field("Content-Disposition", a.disposition), BASE64_FIELD, Field("Content-Type", a.mediaType)]
  }

  function Bodies(e: Email): seq<Body> {
    [("text/plain; charset=utf-8", e.text), ("text/html; charset=utf-8", e.html)]
  }

  // ------------------------------------------------------------ base64 in 76-character lines

  function Lines76(enc: string): seq<string> {
    if |enc| <= 76 then [enc] else [enc[..76]] + Lines76(enc[76..])
  }

  function Concat(lines: seq<string>): string {
    if lines == [] then "" else lines[0] + Concat(lines[1..])
  }

  lemma {:induction false} Lines76Wraps(enc: string)
    requires forall c | c in enc :: IsSymbol(c)
    ensures Concat(Lines76(enc)) == enc
    ensures forall i | 0 <= i < |Lines76(enc)| ::
              |Lines76(enc)[i]| <= 76 && (i < |Lines76(enc)| - 1 ==> |Lines76(enc)[i]| == 76)
    ensures forall l, c | l in Lines76(enc) && c in l :: IsSymbol(c)
    ensures Lines76(enc) != [] && (Lines76(enc)[|Lines76(enc)| - 1] == "" <==> enc == "")
  {
    if |enc| > 76 {
      Lines76Wraps(enc[76..]);
      assert Lines76(enc)[1..] == Lines76(enc[76..]);
      assert enc[..76] + enc[76..] == enc;
    }
  }

  // ------------------------------------------------------------ what is written

  function LeafPart(fields: seq<Field>, data: seq<Byte>): RawPart {
    RawPart(fields, Lines76(Encode(data)))
  }

  function BodyParts(bodies: seq<Body>): seq<RawPart> {
    if bodies == [] then []
    else
      var last := bodies[|bodies| - 1];
      BodyParts(bodies[..|bodies| - 1])
      + (if last.1 == [] then [] else [LeafPart(BodyFields(last.0), last.1)])
  }

  function AlternativePart(e: Email, env: Envelope): RawPart {
    RawPart(AlternativeFields(env), MultipartLines(env.altBoundary, BodyParts(Bodies(e))))
  }

  function AttachmentParts(attachments: seq<Attachment>): seq<RawPart> {
    seq(|attachments|, i requires 0 <= i < |attachments| =>
      LeafPart(AttachmentFields(attachments[i]), attachments[i].data))
  }

  function MixedParts(e: Email, env: Envelope): seq<RawPart> {
    [AlternativePart(e, env)] + AttachmentParts(e.attachments)
  }

  function MessageLines(from: string, e: Email, env: Envelope): seq<string> {
    FieldLines(HeaderFields(from, e, env)) + [""] + MultipartLines(env.mixedBoundary, MixedParts(e, env))
  }

  // ------------------------------------------------------------ the lines on the wire

  /** The header block, word by word. */
  lemma HeaderLinesAre(from: string, e: Email, env: Envelope)
    ensures FieldLines(HeaderFields(from, e, env)) == [
      "From: " + from,
      "To: " + e.to,
      "Subject: " + env.subject,
      "Date: " + env.date,
      "Message-ID: " + env.messageId,
      "MIME-Version: 1.0",
      "Content-Type: multipart/mixed; boundary=\"" + env.mixedBoundary + "\""]
  {
    hide FieldLine;
    AddressLinesAre(from, e, env);
    MimeLinesAre(env);
  }

  lemma AddressLinesAre(from: string, e: Email, env: Envelope)
    ensures FieldLine(Field("From", from)) == "From: " + from
    ensures FieldLine(Field("To", e.to)) == "To: " + e.to
    ensures FieldLine(Field("Subject", env.subject)) == "Subject: " + env.subject
    ensures FieldLine(Field("Date", env.date)) == "Date: " + env.date
  {
    NameThenValue("From", "From: ", from);
    NameThenValue("To", "To: ", e.to);
    NameThenValue("Subject", "Subject: ", env.subject);
    NameThenValue("Date", "Date: ", env.date);
  }

  lemma MimeLinesAre(env: Envelope)
    ensures FieldLine(Field("Message-ID", env.messageId)) == "Message-ID: " + env.messageId
    ensures FieldLine(Field("MIME-Version", "1.0")) == "MIME-Version: 1.0"
    ensures FieldLine(Field("Content-Type", "multipart/mixed; boundary=\"" + env.mixedBoundary + "\""))
         == "Content-Type: multipart/mixed; boundary=\"" + env.mixedBoundary + "\""
  {
    NameThenValue("Message-ID", "Message-ID: ", env.messageId);
    TypeThenBoundary("multipart/mixed; boundary=\"", "Content-Type: multipart/mixed; boundary=\"", env.mixedBoundary);
  }

  lemma AlternativeLineIs(env: Envelope)
    ensures FieldLines(AlternativeFields(env)) ==
      ["Content-Type: " + ("multipart/alternative; boundary=\"" + env.altBoundary + "\"")]
  {
    NameThenValue("Content-Type", "Content-Type: ", "multipart/alternative; boundary=\"" + env.altBoundary + "\"");
    hide FieldLine;
  }

  lemma NameThenValue(name: string, prefix: string, value: string)
    requires name + ": " == prefix
    ensures FieldLine(Field(name, value)) == prefix + value
  {
  }

  lemma TypeThenBoundary(kind: string, prefix: string, boundary: string)
    requires "Content-Type" + ": " + kind == prefix
    ensures FieldLine(Field("Content-Type", kind + boundary + "\"")) == prefix + boundary + "\""
  {
    var name := "Content-Type" + ": ";
    assert name + (kind + boundary + "\"") == (name + kind) + boundary + "\"";
  }

  /** A body part and an attachment, word by word. */
  lemma LeafLinesAre(contentType: string, a: Attachment, data: seq<Byte>, boundary: string)
    ensures PartLines(boundary, LeafPart(BodyFields(contentType), data)) == [
      "--" + boundary, "Content-Transfer-Encoding: base64", "Content-Type: " + contentType, ""] + Lines76(Encode(data))
    ensures PartLines(boundary, LeafPart(AttachmentFields(a), a.data)) == [
      "--" + boundary, "Content-Disposition: " + a.disposition, "Content-Transfer-Encoding: base64",
      "Content-Type: " + a.mediaType, ""] + Lines76(Encode(a.data))
  {
    EncodingLine();
    NameThenValue("Content-Type", "Content-Type: ", contentType);
    NameThenValue("Content-Type", "Content-Type: ", a.mediaType);
    NameThenValue("Content-Disposition", "Content-Disposition: ", a.disposition);
    hide FieldLine;
  }

  lemma EncodingLine()
    ensures FieldLine(BASE64_FIELD) == "Content-Transfer-Encoding: base64"
  {
    assert "Content-Transfer-Encoding" + ": " == "Content-Transfer-Encoding: ";
    assert "Content-Transfer-Encoding: " + "base64" == "Content-Transfer-Encoding: base64";
  }

  // ------------------------------------------------------------ an independent reader

  datatype Leaf = Leaf(fields: seq<Field>, data: seq<Byte>)

  datatype Received = Received(fields: seq<Field>, bodies: seq<Leaf>, attachments: seq<Leaf>)

  // Section 6.8 of RFC 2045: characters outside the base64 alphabet are ignored.
  function Symbols(text: string): string {
    if text == "" then ""
    else (if IsSymbol(text[0]) then [text[0]] else "") + Symbols(text[1..])
  }

  function ReadLeaf(e: Entity): Option<Leaf> {
    if BASE64_FIELD !in e.fields then None
    else
      var data :- Decode(Symbols(e.body));
      Some(Leaf(e.fields, data))
  }

  function ReadLeaves(es: seq<Entity>): Option<seq<Leaf>> {
    if es == [] then Some([])
    else
      var head :- ReadLeaf(es[0]);
      var rest :- ReadLeaves(es[1..]);
      Some([head] + rest)
  }

  function BoundaryOf(fields: seq<Field>, kind: string): Option<string> {
    if fields == [] then None
    else if fields[0].name == "Content-Type" then
      var v := fields[0].value;
      var prefix := kind + "; boundary=\"";
      if prefix <= v && |v| > |prefix| && v[|v| - 1] == '"'
      then Some(v[|prefix|..|v| - 1]) else None
    else BoundaryOf(fields[1..], kind)
  }

  /** Reads a whole message: its headers, its alternative bodies, its attachments. */
  function Read(text: string): Option<Received> {
    var lines := SplitLines(text);
    var n := FirstBlank(lines);
    if n == |lines| then None
    else
      var fields :- ReadFields(lines[..n]);
      var mixed :- BoundaryOf(fields, "multipart/mixed");
      var parts :- ReadMultipart(mixed, lines[n + 1..]);
      if parts == [] then None
      else
        var alt :- BoundaryOf(parts[0].fields, "multipart/alternative");
        var inner :- ReadMultipart(alt, SplitLines(parts[0].body));
        var bodies :- ReadLeaves(inner);
        var attachments :- ReadLeaves(parts[1..]);
        Some(Received(fields, bodies, attachments))
  }

  // ------------------------------------------------------------ what the reader must find

  function BodyLeaves(bodies: seq<Body>): seq<Leaf> {
    if bodies == [] then []
    else
      var last := bodies[|bodies| - 1];
      BodyLeaves(bodies[..|bodies| - 1]) + (if last.1 == [] then [] else [Leaf(BodyFields(last.0), last.1)])
  }

  function AttachmentLeaves(attachments: seq<Attachment>): seq<Leaf> {
    seq(|attachments|, i requires 0 <= i < |attachments| =>
      Leaf(AttachmentFields(attachments[i]), attachments[i].data))
  }

  function Sent(from: string, e: Email, env: Envelope): Received {
    Received(HeaderFields(from, e, env), BodyLeaves(Bodies(e)), AttachmentLeaves(e.attachments))
  }

  function Lookup(fields: seq<Field>, name: string): Option<string> {
    if fields == [] then None
    else if fields[0].name == name then Some(fields[0].value)
    else Lookup(fields[1..], name)
  }

  lemma LookupNext(fields: seq<Field>, name: string, n: nat)
    requires n < |fields| && fields[n].name == name && forall i | 0 <= i < n :: fields[i].name != name
    ensures Lookup(fields, name) == Some(fields[n].value)
  {
    if n > 0 {
      LookupNext(fields[1..], name, n - 1);
    }
  }

  predicate IsLeaf(l: Leaf, contentType: string, data: seq<Byte>) {
    l.data == data && Lookup(l.fields, "Content-Type") == Some(contentType)
  }

  /** What is received names the sender and the recipient, and has the text before the HTML. */
  lemma ReceivedSaysWhatWasSent(from: string, e: Email, env: Envelope)
    ensures var r := Sent(from, e, env);
      && Lookup(r.fields, "From") == Some(from) && Lookup(r.fields, "To") == Some(e.to)
      && Lookup(r.fields, "Subject") == Some(env.subject) && Lookup(r.fields, "Date") == Some(env.date)
      && Lookup(r.fields, "Message-ID") == Some(env.messageId) && Lookup(r.fields, "MIME-Version") == Some("1.0")
      && |r.bodies| == (if e.text == [] then 0 else 1) + (if e.html == [] then 0 else 1)
      && (e.text != [] ==> IsLeaf(r.bodies[0], "text/plain; charset=utf-8", e.text))
      && (e.html != [] ==> IsLeaf(r.bodies[|r.bodies| - 1], "text/html; charset=utf-8", e.html))
      && |r.attachments| == |e.attachments|
      && (forall i | 0 <= i < |e.attachments| ::
            IsLeaf(r.attachments[i], e.attachments[i].mediaType, e.attachments[i].data))
      && (forall i | 0 <= i < |e.attachments| ::
            Lookup(r.attachments[i].fields, "Content-Disposition") == Some(e.attachments[i].disposition))
  {
    AddressesAreFound(from, e, env);
    BodiesAreFound(e);
    forall i | 0 <= i < |e.attachments|
      ensures Lookup(AttachmentFields(e.attachments[i]), "Content-Type") == Some(e.attachments[i].mediaType)
      ensures Lookup(AttachmentFields(e.attachments[i]), "Content-Disposition") == Some(e.attachments[i].disposition)
    {
      AttachmentIsFound(e.attachments[i]);
    }
    hide HeaderFields, Lookup, BodyLeaves, BodyFields, AttachmentFields;
  }

  lemma AddressesAreFound(from: string, e: Email, env: Envelope)
    ensures var fields := HeaderFields(from, e, env);
      && Lookup(fields, "From") == Some(from) && Lookup(fields, "To") == Some(e.to)
      && Lookup(fields, "Subject") == Some(env.subject) && Lookup(fields, "Date") == Some(env.date)
      && Lookup(fields, "Message-ID") == Some(env.messageId) && Lookup(fields, "MIME-Version") == Some("1.0")
  {
    var fields := HeaderFields(from, e, env);
    LookupNext(fields, "From", 0);
    LookupNext(fields, "To", 1);
    LookupNext(fields, "Subject", 2);
    LookupNext(fields, "Date", 3);
    LookupNext(fields, "Message-ID", 4);
    LookupNext(fields, "MIME-Version", 5);
  }

  lemma AttachmentIsFound(a: Attachment)
    ensures Lookup(AttachmentFields(a), "Content-Type") == Some(a.mediaType)
    ensures Lookup(AttachmentFields(a), "Content-Disposition") == Some(a.disposition)
  {
    LookupNext(AttachmentFields(a), "Content-Type", 2);
    LookupNext(AttachmentFields(a), "Content-Disposition", 0);
  }

  lemma BodiesAreFound(e: Email)
    ensures BodyLeaves(Bodies(e)) ==
      (if e.text == [] then [] else [Leaf(BodyFields("text/plain; charset=utf-8"), e.text)])
      + (if e.html == [] then [] else [Leaf(BodyFields("text/html; charset=utf-8"), e.html)])
    ensures forall contentType :: Lookup(BodyFields(contentType), "Content-Type") == Some(contentType)
  {
    assert Bodies(e)[..1] == [Bodies(e)[0]] && Bodies(e)[..1][..0] == [];
    assert BodyLeaves(Bodies(e)[..1])
        == if e.text == [] then [] else [Leaf(BodyFields("text/plain; charset=utf-8"), e.text)];
    forall contentType
      ensures Lookup(BodyFields(contentType), "Content-Type") == Some(contentType)
    {
      LookupNext(BodyFields(contentType), "Content-Type", 1);
    }
  }

  lemma {:induction false} SymbolsOfLine(line: string, rest: string)
    requires forall c | c in line :: IsSymbol(c)
    ensures Symbols(line + CRLF + rest) == line + Symbols(rest)
  {
    var text := line + CRLF + rest;
    if line == "" {
      assert text[1..] == ['\n'] + rest && text[1..][1..] == rest;
    } else {
      assert text[1..] == line[1..] + CRLF + rest && text[0] == line[0];
      SymbolsOfLine(line[1..], rest);
    }
  }

  lemma {:induction false} SymbolsOfLines(lines: seq<string>)
    requires forall l, c | l in lines && c in l :: IsSymbol(c)
    ensures Symbols(JoinLines(lines + [""])) == Concat(lines)
  {
    if lines == [] {
      assert JoinLines([""]) == "";
    } else {
      assert (lines + [""])[1..] == lines[1..] + [""];
      SymbolsOfLines(lines[1..]);
      assert lines[0] in lines;
      SymbolsOfLine(lines[0], JoinLines(lines[1..] + [""]));
    }
  }

  lemma LeafReadsBack(fields: seq<Field>, data: seq<Byte>)
    requires BASE64_FIELD in fields
    ensures ReadLeaf(Seen(LeafPart(fields, data))) == Some(Leaf(fields, data))
  {
    EncodeEmitsSymbols(data);
    Lines76Wraps(Encode(data));
    SymbolsOfLines(Lines76(Encode(data)));
    DecodeInvertsEncode(data);
  }

  lemma {:induction false} LeavesReadBack(parts: seq<RawPart>, leaves: seq<Leaf>)
    requires |parts| == |leaves|
    requires forall i | 0 <= i < |parts| ::
               BASE64_FIELD in leaves[i].fields && parts[i] == LeafPart(leaves[i].fields, leaves[i].data)
    ensures ReadLeaves(SeenAll(parts)) == Some(leaves)
  {
    if parts != [] {
      LeafReadsBack(leaves[0].fields, leaves[0].data);
      LeavesReadBack(parts[1..], leaves[1..]);
      assert SeenAll(parts)[1..] == SeenAll(parts[1..]);
      assert [leaves[0]] + leaves[1..] == leaves;
    } else {
      assert SeenAll(parts) == [];
    }
  }

  lemma {:induction false} BodyPartsAreLeaves(bodies: seq<Body>)
    ensures |BodyParts(bodies)| == |BodyLeaves(bodies)|
    ensures forall i | 0 <= i < |BodyParts(bodies)| ::
              var l := BodyLeaves(bodies)[i];
              BASE64_FIELD in l.fields && BodyParts(bodies)[i] == LeafPart(l.fields, l.data)
    ensures forall i | 0 <= i < |BodyLeaves(bodies)| ::
              exists b | b in bodies :: BodyLeaves(bodies)[i] == Leaf(BodyFields(b.0), b.1)
  {
    if bodies != [] {
      BodyPartsAreLeaves(bodies[..|bodies| - 1]);
    }
  }

  // ------------------------------------------------------------ no line hides a boundary

  ghost predicate GoodLeaf(part: RawPart) {
    && (forall f | f in part.fields :: GoodField(f))
    && (forall l, c | l in part.content && c in l :: IsSymbol(c))
  }

  ghost predicate GoodName(name: string) {
    name != "" && ':' !in name && NoBreaks(name) && name[0] != '-'
  }

  lemma NameOfHalves(name: string, head: string, tail: string)
    requires name == head + tail && GoodName(head) && ':' !in tail && NoBreaks(tail)
    ensures GoodName(name)
  {
  }

  lemma EncodingNameIsGood()
    ensures GoodName("Content-Transfer-Encoding")
  {
    NameOfHalves("Content-Transfer-Encoding", "Content-Tran", "sfer-Encoding");
  }

  lemma DispositionNameIsGood()
    ensures GoodName("Content-Disposition")
  {
    NameOfHalves("Content-Disposition", "Content-D", "isposition");
  }

  lemma TypeNameIsGood()
    ensures GoodName("Content-Type")
  {
  }

  lemma BodyFieldsAreGood(contentType: string)
    requires NoBreaks(contentType)
    ensures forall f | f in BodyFields(contentType) :: GoodField(f)
  {
    EncodingNameIsGood();
    TypeNameIsGood();
    assert NoBreaks("base64");
  }

  lemma AttachmentFieldsAreGood(a: Attachment)
    requires NoBreaks(a.mediaType) && NoBreaks(a.disposition)
    ensures forall f | f in AttachmentFields(a) :: GoodField(f)
  {
    DispositionNameIsGood();
    BodyFieldsAreGood(a.mediaType);
    forall f | f in AttachmentFields(a)
      ensures GoodField(f)
    {
      assert f.name == "Content-Disposition" || f in BodyFields(a.mediaType);
    }
  }

  lemma AlternativeFieldsAreGood(env: Envelope)
    requires NoBreaks(env.altBoundary)
    ensures forall f | f in AlternativeFields(env) :: GoodField(f)
  {
    TypeNameIsGood();
    assert NoBreaks("multipart/alter") && NoBreaks("native; boundary=\"");
    assert "multipart/alternative; boundary=\"" == "multipart/alter" + "native; boundary=\"";
  }

  lemma BodyTypesAreGood(e: Email)
    ensures forall b | b in Bodies(e) :: NoBreaks(b.0)
  {
  }

  lemma DashlessIsNoDelimiter(boundary: string, line: string)
    requires line == "" || line[0] != '-'
    ensures !IsDelimiter(boundary, line)
  {
    assert Delimiter(boundary)[0] == '-';
  }

  lemma LeafIsGood(fields: seq<Field>, data: seq<Byte>, boundary: string)
    requires forall f | f in fields :: GoodField(f)
    ensures GoodLeaf(LeafPart(fields, data)) && GoodPart(boundary, LeafPart(fields, data))
  {
    EncodeEmitsSymbols(data);
    Lines76Wraps(Encode(data));
    forall l | l in Lines76(Encode(data))
      ensures !IsDelimiter(boundary, l)
    {
      if l != "" {
        assert l[0] in l;
      }
      DashlessIsNoDelimiter(boundary, l);
    }
  }

  // Every line of a multipart body of leaves is one of these.
  ghost predicate WireLine(boundary: string, line: string) {
    || line == "" || line == Delimiter(boundary) || line == CloseDelimiter(boundary)
    || (line != "" && line[0] != '-' && NoBreaks(line))
  }

  lemma {:induction false} OpenLinesAreWireLines(boundary: string, parts: seq<RawPart>)
    requires forall p | p in parts :: GoodLeaf(p)
    ensures forall l | l in OpenLines(boundary, parts) :: WireLine(boundary, l)
  {
    if parts != [] {
      var p := parts[0];
      assert GoodLeaf(p);
      FieldsReadBack(p.fields);
      forall l | l in p.content
        ensures WireLine(boundary, l)
      {
        if l != "" {
          assert l[0] in l;
        }
      }
      assert forall l | l in PartLines(boundary, p) :: WireLine(boundary, l);
      OpenLinesAreWireLines(boundary, parts[1..]);
    }
  }

  lemma OtherBoundary(env: Envelope, line: string)
    requires GoodEnvelope(env) && WireLine(env.altBoundary, line)
    ensures !IsDelimiter(env.mixedBoundary, line)
  {
    if line == "" || line[0] != '-' {
      DashlessIsNoDelimiter(env.mixedBoundary, line);
    } else {
      var d := Delimiter(env.mixedBoundary);
      assert line[..|d|] == Delimiter(env.altBoundary);
      assert d[2..] == env.mixedBoundary && Delimiter(env.altBoundary)[2..] == env.altBoundary;
    }
  }

  lemma BodyPartsAreGood(bodies: seq<Body>, boundary: string)
    requires forall b | b in bodies :: NoBreaks(b.0)
    ensures forall p | p in BodyParts(bodies) :: GoodLeaf(p) && GoodPart(boundary, p)
  {
    BodyPartsAreLeaves(bodies);
    forall p | p in BodyParts(bodies)
      ensures GoodLeaf(p) && GoodPart(boundary, p)
    {
      var i :| 0 <= i < |BodyParts(bodies)| && BodyParts(bodies)[i] == p;
      var b :| b in bodies && BodyLeaves(bodies)[i] == Leaf(BodyFields(b.0), b.1);
      BodyFieldsAreGood(b.0);
      LeafIsGood(BodyFields(b.0), b.1, boundary);
    }
  }

  lemma AlternativeIsGood(e: Email, env: Envelope)
    requires GoodEnvelope(env)
    ensures GoodPart(env.mixedBoundary, AlternativePart(e, env))
    ensures forall l | l in AlternativePart(e, env).content :: WireLine(env.altBoundary, l)
  {
    AlternativeFieldsAreGood(env);
    BodyTypesAreGood(e);
    BodyPartsAreGood(Bodies(e), env.altBoundary);
    OpenLinesAreWireLines(env.altBoundary, BodyParts(Bodies(e)));
    forall l | l in AlternativePart(e, env).content
      ensures !IsDelimiter(env.mixedBoundary, l)
    {
      OtherBoundary(env, l);
    }
  }

  lemma AttachmentIsGood(a: Attachment, boundary: string)
    requires NoBreaks(a.mediaType) && NoBreaks(a.disposition)
    ensures GoodLeaf(LeafPart(AttachmentFields(a), a.data))
    ensures GoodPart(boundary, LeafPart(AttachmentFields(a), a.data))
  {
    AttachmentFieldsAreGood(a);
    LeafIsGood(AttachmentFields(a), a.data, boundary);
  }

  lemma MixedIsGood(e: Email, env: Envelope)
    requires GoodEnvelope(env) && GoodMediaTypes(e)
    ensures forall p | p in MixedParts(e, env) :: GoodPart(env.mixedBoundary, p)
    ensures forall p | p in AttachmentParts(e.attachments) :: GoodLeaf(p)
  {
    AlternativeIsGood(e, env);
    forall i | 0 <= i < |e.attachments|
      ensures GoodLeaf(AttachmentParts(e.attachments)[i])
      ensures GoodPart(env.mixedBoundary, AttachmentParts(e.attachments)[i])
    {
      AttachmentIsGood(e.attachments[i], env.mixedBoundary);
    }
  }

  lemma AddressNamesAreGood()
    ensures GoodName("From") && GoodName("To") && GoodName("Subject") && GoodName("Date")
  {
  }

  lemma MimeNamesAreGood()
    ensures GoodName("Message-ID") && GoodName("MIME-Version")
  {
  }

  lemma MixedTypeIsGood(env: Envelope)
    requires NoBreaks(env.mixedBoundary)
    ensures NoBreaks("multipart/mixed; boundary=\"" + env.mixedBoundary + "\"")
  {
    assert NoBreaks("multipart/mixed; boundary=\"");
  }

  lemma HeaderFieldsAreGood(from: string, e: Email, env: Envelope)
    requires NoBreaks(from) && NoBreaks(e.to) && GoodEnvelope(env)
    ensures forall f | f in HeaderFields(from, e, env) :: GoodField(f)
  {
    AddressNamesAreGood();
    MimeNamesAreGood();
    TypeNameIsGood();
    MixedTypeIsGood(env);
    assert NoBreaks("1.0");
    forall f | f in HeaderFields(from, e, env)
      ensures GoodName(f.name) && NoBreaks(f.value)
    {
    }
  }

  // ------------------------------------------------------------ the builder's message reads back

  lemma {:induction false} BoundaryIsFound(fields: seq<Field>, kind: string, boundary: string)
    requires fields != [] && fields[|fields| - 1] == Field("Content-Type", kind + "; boundary=\"" + boundary + "\"")
    requires forall i | 0 <= i < |fields| - 1 :: fields[i].name != "Content-Type"
    ensures BoundaryOf(fields, kind) == Some(boundary)
  {
    if |fields| == 1 {
      var prefix := kind + "; boundary=\"";
      var v := fields[0].value;
      assert v == prefix + (boundary + "\"");
      assert v[|prefix|..|v| - 1] == boundary;
    } else {
      BoundaryIsFound(fields[1..], kind, boundary);
    }
  }

  lemma AlternativeReadsBack(e: Email, env: Envelope)
    requires GoodEnvelope(env)
    ensures SplitLines(Seen(AlternativePart(e, env)).body) == AlternativePart(e, env).content + [""]
    ensures ReadMultipart(env.altBoundary, AlternativePart(e, env).content + [""])
         == Some(SeenAll(BodyParts(Bodies(e))))
    ensures ReadLeaves(SeenAll(BodyParts(Bodies(e)))) == Some(BodyLeaves(Bodies(e)))
  {
    AlternativeIsGood(e, env);
    SplitInvertsJoin(AlternativePart(e, env).content + [""]);
    BodyTypesAreGood(e);
    BodyPartsAreGood(Bodies(e), env.altBoundary);
    MultipartReadsBack(env.altBoundary, BodyParts(Bodies(e)), [""]);
    BodyPartsAreLeaves(Bodies(e));
    LeavesReadBack(BodyParts(Bodies(e)), BodyLeaves(Bodies(e)));
  }

  ghost predicate CleanPart(part: RawPart) {
    && (forall f | f in part.fields :: GoodField(f))
    && (forall l | l in part.content :: NoBreaks(l))
  }

  lemma {:induction false} OpenLinesAreClean(boundary: string, parts: seq<RawPart>)
    requires IsBoundary(boundary) && forall p | p in parts :: CleanPart(p)
    ensures forall l | l in OpenLines(boundary, parts) :: NoBreaks(l)
  {
    if parts != [] {
      assert CleanPart(parts[0]);
      FieldsReadBack(parts[0].fields);
      assert forall l | l in PartLines(boundary, parts[0]) :: NoBreaks(l);
      OpenLinesAreClean(boundary, parts[1..]);
    }
  }

  lemma MixedIsClean(e: Email, env: Envelope)
    requires GoodEnvelope(env) && GoodMediaTypes(e)
    ensures forall p | p in MixedParts(e, env) :: CleanPart(p)
  {
    AlternativeIsGood(e, env);
    MixedIsGood(e, env);
    assert CleanPart(AlternativePart(e, env)) by {
      forall l | l in AlternativePart(e, env).content
        ensures NoBreaks(l)
      {
        assert WireLine(env.altBoundary, l);
      }
    }
    forall p | p in AttachmentParts(e.attachments)
      ensures CleanPart(p)
    {
      assert GoodLeaf(p);
    }
  }

  lemma MessageHasNoStrayBreaks(from: string, e: Email, env: Envelope)
    requires NoBreaks(from) && NoBreaks(e.to) && GoodEnvelope(env) && GoodMediaTypes(e)
    ensures forall l | l in MessageLines(from, e, env) :: NoBreaks(l)
  {
    hide HeaderFields, MixedParts;
    HeaderFieldsAreGood(from, e, env);
    FieldsReadBack(HeaderFields(from, e, env));
    MixedIsClean(e, env);
    OpenLinesAreClean(env.mixedBoundary, MixedParts(e, env));
    assert NoBreaks(CloseDelimiter(env.mixedBoundary));
  }

  lemma PartsReadBack(e: Email, env: Envelope)
    requires GoodEnvelope(env) && GoodMediaTypes(e)
    ensures ReadMultipart(env.mixedBoundary, MultipartLines(env.mixedBoundary, MixedParts(e, env)) + [""])
         == Some(SeenAll(MixedParts(e, env)))
    ensures SeenAll(MixedParts(e, env))[0] == Seen(AlternativePart(e, env))
    ensures ReadLeaves(SeenAll(MixedParts(e, env))[1..]) == Some(AttachmentLeaves(e.attachments))
  {
    hide Encode, Lines76, MultipartLines, ReadMultipart, AlternativePart, ReadLeaf;
    MixedIsGood(e, env);
    MultipartReadsBack(env.mixedBoundary, MixedParts(e, env), [""]);
    LeavesReadBack(AttachmentParts(e.attachments), AttachmentLeaves(e.attachments));
    assert SeenAll(MixedParts(e, env))[1..] == SeenAll(AttachmentParts(e.attachments));
  }

  lemma HeadReadsBack(fields: seq<Field>, body: seq<string>)
    requires forall f | f in fields :: GoodField(f)
    ensures var lines := FieldLines(fields) + [""] + body;
            && FirstBlank(lines) == |fields|
            && ReadFields(lines[..|fields|]) == Some(fields)
            && lines[|fields| + 1..] == body
  {
    FieldsReadBack(fields);
    var heads := FieldLines(fields);
    var lines := heads + [""] + body;
    assert forall i | 0 <= i < |heads| :: lines[i] == heads[i];
    assert lines[|heads|] == "";
    assert lines[..|heads|] == heads;
  }

  lemma TypeComesLast(from: string, e: Email, env: Envelope)
    ensures forall i | 0 <= i < 6 :: HeaderFields(from, e, env)[i].name != "Content-Type"
  {
    forall i | 0 <= i < 6
      ensures HeaderFields(from, e, env)[i].name[0] != 'C'
    {
    }
  }

  lemma BoundariesAreFound(from: string, e: Email, env: Envelope)
    ensures BoundaryOf(HeaderFields(from, e, env), "multipart/mixed") == Some(env.mixedBoundary)
    ensures BoundaryOf(AlternativeFields(env), "multipart/alternative") == Some(env.altBoundary)
  {
    var fields := HeaderFields(from, e, env);
    TypeComesLast(from, e, env);
    assert fields[|fields| - 1]
        == Field("Content-Type", "multipart/mixed" + "; boundary=\"" + env.mixedBoundary + "\"") by {
      assert "multipart/mixed" + "; boundary=\"" == "multipart/mixed; boundary=\"";
    }
    assert AlternativeFields(env)[0]
        == Field("Content-Type", "multipart/alternative" + "; boundary=\"" + env.altBoundary + "\"") by {
      assert "multipart/alternative" + "; boundary=\"" == "multipart/alternative; boundary=\"";
    }
    hide HeaderFields, BoundaryOf;
    BoundaryIsFound(fields, "multipart/mixed", env.mixedBoundary);
    BoundaryIsFound(AlternativeFields(env), "multipart/alternative", env.altBoundary);
  }

  // The reader's steps put together, given what each of them finds.
  lemma ReadAssembles(
    text: string, lines: seq<string>, n: nat, fields: seq<Field>, mixed: string, parts: seq<Entity>,
    alt: string, inner: seq<Entity>, bodies: seq<Leaf>, attachments: seq<Leaf>)
    requires SplitLines(text) == lines && FirstBlank(lines) == n < |lines|
    requires ReadFields(lines[..n]) == Some(fields) && BoundaryOf(fields, "multipart/mixed") == Some(mixed)
    requires ReadMultipart(mixed, lines[n + 1..]) == Some(parts) && parts != []
    requires BoundaryOf(parts[0].fields, "multipart/alternative") == Some(alt)
    requires ReadMultipart(alt, SplitLines(parts[0].body)) == Some(inner)
    requires ReadLeaves(inner) == Some(bodies) && ReadLeaves(parts[1..]) == Some(attachments)
    ensures Read(text) == Some(Received(fields, bodies, attachments))
  {
  }

  /** Every message the builder makes reads back as exactly its headers, non-empty bodies and attachments. */
  lemma MessageReadsBack(from: string, e: Email, env: Envelope)
    requires NoBreaks(from) && NoBreaks(e.to) && GoodEnvelope(env) && GoodMediaTypes(e)
    ensures Read(Terminated(MessageLines(from, e, env))) == Some(Sent(from, e, env))
  {
    var fields := HeaderFields(from, e, env);
    var body := MultipartLines(env.mixedBoundary, MixedParts(e, env)) + [""];
    MessageHasNoStrayBreaks(from, e, env);
    TerminatedIsJoin(MessageLines(from, e, env));
    assert MessageLines(from, e, env) + [""] == FieldLines(fields) + [""] + body;
    SplitInvertsJoin(FieldLines(fields) + [""] + body);
    HeaderFieldsAreGood(from, e, env);
    HeadReadsBack(fields, body);
    BoundariesAreFound(from, e, env);
    PartsReadBack(e, env);
    AlternativeReadsBack(e, env);
    ReadAssembles(
      Terminated(MessageLines(from, e, env)), FieldLines(fields) + [""] + body, |fields|, fields,
      env.mixedBoundary, SeenAll(MixedParts(e, env)), env.altBoundary, SeenAll(BodyParts(Bodies(e))),
      BodyLeaves(Bodies(e)), AttachmentLeaves(e.attachments));
  }
}
