/**
 Multipart bodies: the bytes Go's multipart.Writer emits, and an independent reader of
 section 5.1.1 of RFC 2046 that takes any text apart again.
 */
module Multipart {
  import opened CrlfText
  import opened Wrappers

  datatype Field = Field(name: string, value: string)

  // One body part as a reader sees it.
  datatype Entity = Entity(fields: seq<Field>, body: string)

  // One body part as a writer emits it; every content line is sent with its CR LF.
  datatype RawPart = RawPart(fields: seq<Field>, content: seq<string>)

  // ------------------------------------------------------------ writing

  function FieldLine(f: Field): string {
    f.name + ": " + f.value
  }

  function FieldLines(fields: seq<Field>): seq<string> {
    seq(|fields|, i requires 0 <= i < |fields| => FieldLine(fields[i]))
  }

  function Delimiter(boundary: string): string {
    "--" + boundary
  }

  function CloseDelimiter(boundary: string): string {
    "--" + boundary + "--"
  }

  function PartLines(boundary: string, part: RawPart): seq<string> {
    [Delimiter(boundary)] + FieldLines(part.fields) + [""] + part.content
  }

  // The parts written so far: each part after the first is preceded by a line break.
  function OpenLines(boundary: string, parts: seq<RawPart>): seq<string> {
    if parts == [] then []
    else if |parts| == 1 then PartLines(boundary, parts[0])
    else PartLines(boundary, parts[0]) + [""] + OpenLines(boundary, parts[1..])
  }

  // A complete multipart body.
  function MultipartLines(boundary: string, parts: seq<RawPart>): seq<string> {
    OpenLines(boundary, parts) + ["", CloseDelimiter(boundary)]
  }

  lemma {:induction false} OpenLinesAppend(boundary: string, parts: seq<RawPart>, part: RawPart)
    ensures OpenLines(boundary, parts + [part])
         == OpenLines(boundary, parts) + (if parts == [] then [] else [""]) + PartLines(boundary, part)
  {
    if |parts| == 1 {
      assert (parts + [part])[1..] == [part];
    } else if |parts| > 1 {
      assert (parts + [part])[1..] == parts[1..] + [part];
      OpenLinesAppend(boundary, parts[1..], part);
    }
  }

  // ------------------------------------------------------------ reading

  // "It is sufficient that the boundary appear in its entirety": a prefix test.
  predicate IsDelimiter(boundary: string, line: string) {
    Delimiter(boundary) <= line
  }

  predicate IsClose(boundary: string, line: string) {
    CloseDelimiter(boundary) <= line
  }

  function NextDelimiter(boundary: string, lines: seq<string>): (n: nat)
    ensures n <= |lines|
    ensures n < |lines| ==> IsDelimiter(boundary, lines[n])
    ensures forall i | 0 <= i < n :: !IsDelimiter(boundary, lines[i])
  {
    if lines == [] || IsDelimiter(boundary, lines[0]) then 0
    else 1 + NextDelimiter(boundary, lines[1..])
  }

  function FirstBlank(lines: seq<string>): (n: nat)
    ensures n <= |lines|
    ensures n < |lines| ==> lines[n] == ""
    ensures forall i | 0 <= i < n :: lines[i] != ""
  {
    if lines == [] || lines[0] == "" then 0 else 1 + FirstBlank(lines[1..])
  }

  function ColonAt(line: string): (n: nat)
    ensures n <= |line|
    ensures n < |line| ==> line[n] == ':'
    ensures forall i | 0 <= i < n :: line[i] != ':'
  {
    if line == "" || line[0] == ':' then 0 else 1 + ColonAt(line[1..])
  }

  function ReadField(line: string): Option<Field> {
    var n := ColonAt(line);
    if n + 1 < |line| && line[n + 1] == ' ' then Some(Field(line[..n], line[n + 2..])) else None
  }

  function ReadFields(lines: seq<string>): Option<seq<Field>> {
    if lines == [] then Some([])
    else
      var head :- ReadField(lines[0]);
      var rest :- ReadFields(lines[1..]);
      Some([head] + rest)
  }

  function ReadEntity(lines: seq<string>): Option<Entity> {
    var n := FirstBlank(lines);
    var fields :- ReadFields(lines[..n]);
    Some(Entity(fields, if n + 1 < |lines| then JoinLines(lines[n + 1..]) else ""))
  }

  // Starting at a delimiter line; the line break before the next delimiter belongs to that delimiter.
  function ReadEntities(boundary: string, lines: seq<string>): Option<seq<Entity>>
    requires lines != []
  {
    if IsClose(boundary, lines[0]) then Some([])
    else
      var n := NextDelimiter(boundary, lines[1..]);
      if n == |lines| - 1 then None
      else
        var head :- ReadEntity(lines[1..n + 1]);
        var rest :- ReadEntities(boundary, lines[n + 1..]);
        Some([head] + rest)
  }

  // Text before the first delimiter and after the close delimiter is ignored.
  function ReadMultipart(boundary: string, lines: seq<string>): Option<seq<Entity>> {
    var n := NextDelimiter(boundary, lines);
    if n == |lines| then None else ReadEntities(boundary, lines[n..])
  }

  // ------------------------------------------------------------ reading undoes writing

  predicate GoodField(f: Field) {
    f.name != "" && ':' !in f.name && NoBreaks(f.name) && NoBreaks(f.value) && f.name[0] != '-'
  }

  ghost predicate GoodPart(boundary: string, part: RawPart) {
    && (forall f | f in part.fields :: GoodField(f))
    && (forall l | l in part.content :: !IsDelimiter(boundary, l))
  }

  function Seen(part: RawPart): Entity {
    Entity(part.fields, JoinLines(part.content + [""]))
  }

  function SeenAll(parts: seq<RawPart>): seq<Entity> {
    seq(|parts|, i requires 0 <= i < |parts| => Seen(parts[i]))
  }

  // The lines between a part's delimiter and the next one.
  function Inner(part: RawPart): seq<string> {
    FieldLines(part.fields) + [""] + (part.content + [""])
  }

  lemma FieldReadsBack(f: Field)
    requires GoodField(f)
    ensures ReadField(FieldLine(f)) == Some(f)
    ensures FieldLine(f) != "" && FieldLine(f)[0] != '-' && NoBreaks(FieldLine(f))
  {
    var line := FieldLine(f);
    var n := ColonAt(line);
    assert line[|f.name|] == ':' && line[|f.name| + 1] == ' ';
    assert forall i | 0 <= i < |f.name| :: line[i] == f.name[i];
    assert line[..|f.name|] == f.name && line[|f.name| + 2..] == f.value;
  }

  lemma {:induction false} FieldsReadBack(fields: seq<Field>)
    requires forall f | f in fields :: GoodField(f)
    ensures ReadFields(FieldLines(fields)) == Some(fields)
    ensures forall l | l in FieldLines(fields) :: l != "" && l[0] != '-' && NoBreaks(l)
  {
    if fields != [] {
      FieldReadsBack(fields[0]);
      FieldsReadBack(fields[1..]);
      assert FieldLines(fields) == [FieldLine(fields[0])] + FieldLines(fields[1..]);
      assert [fields[0]] + fields[1..] == fields;
    }
  }

  lemma EntityReadsBack(part: RawPart)
    requires forall f | f in part.fields :: GoodField(f)
    ensures ReadEntity(Inner(part)) == Some(Seen(part))
  {
    FieldsReadBack(part.fields);
    var heads := FieldLines(part.fields);
    var lines := heads + [""] + (part.content + [""]);
    var n := FirstBlank(lines);
    assert lines[|heads|] == "";
    assert forall i | 0 <= i < |heads| :: lines[i] == heads[i];
    assert lines[..n] == heads && lines[n + 1..] == part.content + [""];
  }

  lemma PartHidesNoDelimiter(boundary: string, part: RawPart, rest: seq<string>)
    requires GoodPart(boundary, part)
    requires rest != [] && IsDelimiter(boundary, rest[0])
    ensures NextDelimiter(boundary, Inner(part) + rest) == |Inner(part)|
  {
    FieldsReadBack(part.fields);
    var inner := Inner(part);
    forall i | 0 <= i < |inner|
      ensures !IsDelimiter(boundary, (inner + rest)[i])
    {
      var l := inner[i];
      assert l in FieldLines(part.fields) || l == "" || l in part.content;
      assert Delimiter(boundary)[0] == '-';
    }
    assert (inner + rest)[|inner|] == rest[0];
  }

  lemma ReadStep(boundary: string, inner: seq<string>, rest: seq<string>, head: Entity, others: seq<Entity>)
    requires '-' !in boundary && rest != []
    requires NextDelimiter(boundary, inner + rest) == |inner|
    requires ReadEntity(inner) == Some(head) && ReadEntities(boundary, rest) == Some(others)
    ensures ReadEntities(boundary, [Delimiter(boundary)] + (inner + rest)) == Some([head] + others)
  {
    var lines := [Delimiter(boundary)] + (inner + rest);
    assert lines[1..] == inner + rest;
    assert lines[1..|inner| + 1] == inner && lines[|inner| + 1..] == rest;
    assert !IsClose(boundary, Delimiter(boundary));
  }

  // What follows the first part, from the next delimiter line on.
  function AfterFirst(boundary: string, parts: seq<RawPart>, tail: seq<string>): seq<string>
    requires parts != []
  {
    (if |parts| == 1 then [CloseDelimiter(boundary)] else MultipartLines(boundary, parts[1..])) + tail
  }

  lemma LinesFromFirst(boundary: string, parts: seq<RawPart>, tail: seq<string>)
    requires parts != []
    ensures MultipartLines(boundary, parts) + tail
         == [Delimiter(boundary)] + (Inner(parts[0]) + AfterFirst(boundary, parts, tail))
  {
  }

  // From one delimiter to the end: the close delimiter sits where the next part would begin.
  lemma {:induction false} EntitiesReadBack(boundary: string, parts: seq<RawPart>, tail: seq<string>)
    requires parts != [] && '-' !in boundary
    requires forall p | p in parts :: GoodPart(boundary, p)
    ensures ReadEntities(boundary, MultipartLines(boundary, parts) + tail) == Some(SeenAll(parts))
  {
    var rest := AfterFirst(boundary, parts, tail);
    assert GoodPart(boundary, parts[0]);
    LinesFromFirst(boundary, parts, tail);
    assert ReadEntities(boundary, rest) == Some(SeenAll(parts[1..])) && IsDelimiter(boundary, rest[0]) by {
      if |parts| > 1 {
        EntitiesReadBack(boundary, parts[1..], tail);
        LinesFromFirst(boundary, parts[1..], tail);
      } else {
        assert rest == [CloseDelimiter(boundary)] + tail && SeenAll(parts[1..]) == [];
      }
    }
    PartHidesNoDelimiter(boundary, parts[0], rest);
    EntityReadsBack(parts[0]);
    ReadStep(boundary, Inner(parts[0]), rest, Seen(parts[0]), SeenAll(parts[1..]));
    assert SeenAll(parts) == [Seen(parts[0])] + SeenAll(parts[1..]);
  }

  /** Reading undoes writing, for any number of parts. */
  lemma MultipartReadsBack(boundary: string, parts: seq<RawPart>, tail: seq<string>)
    requires '-' !in boundary
    requires forall p | p in parts :: GoodPart(boundary, p)
    ensures ReadMultipart(boundary, MultipartLines(boundary, parts) + tail) == Some(SeenAll(parts))
  {
    var lines := MultipartLines(boundary, parts) + tail;
    if parts == [] {
      assert lines == ["", CloseDelimiter(boundary)] + tail;
      assert !IsDelimiter(boundary, lines[0]) && IsDelimiter(boundary, lines[1]);
      assert SeenAll(parts) == [];
    } else {
      assert lines[0] == Delimiter(boundary);
      assert lines[0..] == lines;
      EntitiesReadBack(boundary, parts, tail);
    }
  }
}
