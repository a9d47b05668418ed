/** A message's hand-written JSON form and its reader (`Serialize` and `Deserialize` for `Message`). */
module MessageWire {
  import opened Wrappers
  import opened Text
  import opened Sequences
  import opened Messages

  datatype Json =
    | Null
    | Bool(value: bool)
    | Number(literal: string)
    | Str(text: string)
    | Arr(items: seq<Json>)
    | Obj(fields: seq<(string, Json)>)

  /** The field names and tags on the wire. */
  datatype Names = Names(
    role: string, content: string, reasoning: string, callId: string, calls: string,
    kind: string, text: string, imageUrl: string, url: string, detail: string,
    id: string, function_: string, name: string, arguments: string)

  const NAMES: Names := Names(
    "role", "content", "reasoning_content", "tool_call_id", "tool_calls",
    "type", "text", "image_url", "url", "detail",
    "id", "function", "name", "arguments")

  /** What the readers need of the names: no two of one object are the same. */
  predicate Distinct(n: Names)
  {
    && n.role != n.content && n.role != n.reasoning && n.role != n.callId && n.role != n.calls
    && n.content != n.reasoning && n.content != n.callId && n.content != n.calls
    && n.reasoning != n.callId && n.reasoning != n.calls && n.callId != n.calls
    && n.kind != n.text && n.kind != n.imageUrl && n.text != n.imageUrl && n.url != n.detail
    && n.id != n.kind && n.id != n.function_ && n.kind != n.function_ && n.name != n.arguments
  }

  lemma NamesAreDistinct()
    ensures Distinct(NAMES)
  {
  }

  // ----- Objects

  function Occurrences(fields: seq<(string, Json)>, name: string): nat
  {
    if fields == [] then 0 else (if fields[0].0 == name then 1 else 0) + Occurrences(fields[1..], name)
  }

  /** The last value under a name, the one a JSON value keeps. */
  function Last(fields: seq<(string, Json)>, name: string): Option<Json>
  {
    if fields == [] then None
    else if Last(fields[1..], name).Some? then Last(fields[1..], name)
    else if fields[0].0 == name then Some(fields[0].1)
    else None
  }

  /** `Value::get`. */
  function Get(j: Json, name: string): Option<Json>
  {
    if j.Obj? then Last(j.fields, name) else None
  }

  function AsString(j: Option<Json>): Option<string>
  {
    if j.Some? && j.value.Str? then Some(j.value.text) else None
  }

  /** A derived struct reader: an object's known fields, each at most once, or an array in field order. */
  function Values(j: Json, names: seq<string>): (r: Option<seq<Option<Json>>>)
    ensures r.Some? ==> |r.value| == |names|
  {
    match j
    case Obj(fields) =>
      if forall i :: 0 <= i < |names| ==> Occurrences(fields, names[i]) <= 1
      then Some(seq(|names|, i requires 0 <= i < |names| => Last(fields, names[i])))
      else None
    case Arr(items) =>
      if |items| <= |names| then Some(seq(|names|, i => if 0 <= i < |items| then Some(items[i]) else None)) else None
    case _ => None
  }

  // ----- Roles and details

  const SYSTEM_NAME := "system"
  const USER_NAME := "user"
  const ASSISTANT_NAME := "assistant"
  const TOOL_NAME := "tool"

  function RoleName(r: Role): string
  {
    match r
    case SystemRole => SYSTEM_NAME
    case UserRole => USER_NAME
    case AssistantRole => ASSISTANT_NAME
    case ToolRole => TOOL_NAME
  }

  function ParseRoleName(s: string): Option<Role>
  {
    if s == SYSTEM_NAME then Some(SystemRole)
    else if s == USER_NAME then Some(UserRole)
    else if s == ASSISTANT_NAME then Some(AssistantRole)
    else if s == TOOL_NAME then Some(ToolRole)
    else None
  }

  /** A derived enum reader: the name, or an object holding it over null. */
  function ParseRole(j: Json): Option<Role>
  {
    match j
    case Str(s) => ParseRoleName(s)
    case Obj(fields) => if |fields| == 1 && fields[0].1 == Null then ParseRoleName(fields[0].0) else None
    case _ => None
  }

  lemma RoleRoundTrip(r: Role)
    ensures ParseRole(Str(RoleName(r))) == Some(r)
  {
  }

  const LOW := "low"
  const ORIGINAL := "original"
  const AUTO := "auto"

  function DetailName(d: Detail): string
  {
    match d
    case Low => LOW
    case Original => ORIGINAL
    case Auto => AUTO
  }

  function ParseDetail(s: string): Option<Detail>
  {
    var t := Lower(Trim(s));
    if t == LOW then Some(Low)
    else if t == ORIGINAL then Some(Original)
    else if t == AUTO then Some(Auto)
    else None
  }

  lemma {:induction false} LowerKeeps(s: string)
    requires forall i :: 0 <= i < |s| ==> 'a' <= s[i] <= 'z'
    ensures Lower(s) == s
  {
    if s != "" {
      LowerKeeps(s[1..]);
    }
  }

  predicate LowerWord(s: string)
  {
    s != "" && forall i :: 0 <= i < |s| ==> 'a' <= s[i] <= 'z'
  }

  lemma LowerWordIsRead(s: string)
    requires LowerWord(s)
    ensures Lower(Trim(s)) == s
  {
    assert !IsWhitespace(s[0]) && !IsWhitespace(s[|s| - 1]);
    LowerKeeps(s);
  }

  lemma LowIsAWord() ensures LowerWord(LOW) && |LOW| == 3 {}
  lemma OriginalIsAWord() ensures LowerWord(ORIGINAL) && |ORIGINAL| == 8 {}
  lemma AutoIsAWord() ensures LowerWord(AUTO) && |AUTO| == 4 {}

  lemma DetailRoundTrip(d: Detail)
    ensures ParseDetail(DetailName(d)) == Some(d)
  {
    LowIsAWord();
    OriginalIsAWord();
    AutoIsAWord();
    LowerWordIsRead(DetailName(d));
  }

  /** The names every provider knows the roles by, and no other is read. */
  lemma RoleNames(s: string)
    ensures ParseRoleName("system") == Some(SystemRole) && ParseRoleName("user") == Some(UserRole)
    ensures ParseRoleName("assistant") == Some(AssistantRole) && ParseRoleName("tool") == Some(ToolRole)
    ensures ParseRoleName(s).Some? ==> s == RoleName(ParseRoleName(s).value)
  {
  }

  /** A role is read from its name, or from an object that holds its name over null, and from nothing else. */
  lemma RoleIsRead(j: Json, r: Role)
    ensures ParseRole(j) == Some(r) <==>
            j == Str(RoleName(r)) || (j.Obj? && |j.fields| == 1 && j.fields[0] == (RoleName(r), Null))
  {
    RoleRoundTrip(r);
    match j
    case Str(s) => RoleNames(s);
    case Obj(fields) => if |fields| == 1 { RoleNames(fields[0].0); }
    case _ =>
  }

  /** A detail is read in any case and between any whitespace; another word is no detail. */
  lemma DetailIsRead(s: string, d: Detail)
    ensures ParseDetail(s) == Some(d) <==> Lower(Trim(s)) == DetailName(d)
  {
    LowIsAWord();
    OriginalIsAWord();
    AutoIsAWord();
  }

  // ----- Printing

  function ImagePart(n: Names, image: ImageRef): Json
    requires image.Url?
  {
    Obj([(n.kind, Str(n.imageUrl)),
         (n.imageUrl, ImageObject(n, image.url, image.detail))])
  }

  function ImageObject(n: Names, url: string, detail: Option<Detail>): Json
  {
    Obj([(n.url, Str(url))] + if detail.Some? then [(n.detail, Str(DetailName(detail.value)))] else [])
  }

  predicate Resolved(images: seq<ImageRef>)
  {
    forall i :: 0 <= i < |images| ==> images[i].Url?
  }

  function ImageParts(n: Names, images: seq<ImageRef>): seq<Json>
    requires Resolved(images)
  {
    if images == [] then [] else [ImagePart(n, images[0])] + ImageParts(n, images[1..])
  }

  function TextPart(n: Names, text: string): Json
  {
    Obj([(n.kind, Str(n.text)), (n.text, Str(text))])
  }

  function ContentField(n: Names, text: string, images: seq<ImageRef>): Json
    requires Resolved(images)
  {
    if images == [] then Str(text)
    else Arr((if text == "" then [] else [TextPart(n, text)]) + ImageParts(n, images))
  }

  function CallJson(n: Names, c: Call): Json
  {
    Obj([(n.id, Str(c.id)), (n.kind, Str(c.kind)),
         (n.function_, Obj([(n.name, Str(c.name)), (n.arguments, Str(c.arguments))]))])
  }

  function CallsJson(n: Names, calls: seq<Call>): seq<Json>
  {
    if calls == [] then [] else [CallJson(n, calls[0])] + CallsJson(n, calls[1..])
  }

  function Optional(name: string, value: Option<string>): seq<(string, Json)>
  {
    if value.Some? then [(name, Str(value.value))] else []
  }

  /** Refuses an unresolved path, and images on anything but a user message. */
  function Serialize(n: Names, m: Message): Option<Json>
  {
    if !Resolved(m.images) || (m.images != [] && m.role != UserRole) then None
    else
      Some(Obj([(n.role, Str(RoleName(m.role))), (n.content, ContentField(n, m.content, m.images))]
               + Optional(n.reasoning, m.reasoning) + Optional(n.callId, m.callId)
               + if m.calls == [] then [] else [(n.calls, Arr(CallsJson(n, m.calls)))]))
  }

  lemma FieldList(a: (string, Json), b: (string, Json), c: seq<(string, Json)>, d: seq<(string, Json)>,
                  e: seq<(string, Json)>)
    ensures c == d == e == [] ==> [a, b] + c + d + e == [a, b]
    ensures d == e == [] && |c| == 1 ==> [a, b] + c + d + e == [a, b, c[0]]
    ensures c == e == [] && |d| == 1 ==> [a, b] + c + d + e == [a, b, d[0]]
    ensures d == [] && |c| == |e| == 1 ==> [a, b] + c + d + e == [a, b, c[0], e[0]]
  {
  }

  lemma AssistantFields(n: Names, text: string, why: string, c: Call)
    ensures Serialize(n, Message(AssistantRole, text, [], Some(why), None, [c])) ==
            Some(Obj([(n.role, Str(ASSISTANT_NAME)), (n.content, Str(text)), (n.reasoning, Str(why)),
                      (n.calls, Arr([CallJson(n, c)]))]))
  {
    var calls := [c];
    assert calls[1..] == [] && [CallJson(n, c)] + [] == [CallJson(n, c)];
    assert CallsJson(n, calls) == [CallJson(n, c)];
    FieldList((n.role, Str(ASSISTANT_NAME)), (n.content, Str(text)), [(n.reasoning, Str(why))], [],
              [(n.calls, Arr([CallJson(n, c)]))]);
  }

  lemma ToolFields(n: Names, text: string, id: string)
    ensures Serialize(n, Message(ToolRole, text, [], None, Some(id), [])) ==
            Some(Obj([(n.role, Str(TOOL_NAME)), (n.content, Str(text)), (n.callId, Str(id))]))
  {
    FieldList((n.role, Str(TOOL_NAME)), (n.content, Str(text)), [], [(n.callId, Str(id))], []);
  }

  lemma UserFields(n: Names, text: string, url: string, detail: Detail)
    requires text != ""
    ensures Serialize(n, Message(UserRole, text, [Url(url, Some(detail))], None, None, [])) ==
            Some(Obj([(n.role, Str(USER_NAME)),
                      (n.content, Arr([TextPart(n, text), ImagePart(n, Url(url, Some(detail)))]))]))
  {
    var images := [Url(url, Some(detail))];
    var part := ImagePart(n, images[0]);
    assert images[1..] == [] && [part] + [] == [part];
    assert ImageParts(n, images) == [part] && [TextPart(n, text)] + [part] == [TextPart(n, text), part];
    FieldList((n.role, Str(USER_NAME)), (n.content, ContentField(n, text, images)), [], [], []);
  }

  lemma ImageFields(n: Names, url: string, detail: Detail)
    ensures ImagePart(n, Url(url, Some(detail))) ==
            Obj([(n.kind, Str(n.imageUrl)),
                 (n.imageUrl, Obj([(n.url, Str(url)), (n.detail, Str(DetailName(detail)))]))])
  {
    assert [(n.url, Str(url))] + [(n.detail, Str(DetailName(detail)))] ==
           [(n.url, Str(url)), (n.detail, Str(DetailName(detail)))];
  }

  /** An assistant's turn, a tool's answer and a user's text with an image, as the provider reads them: the
      names of the fields, their order, and which of them are there. */
  lemma Documents(text: string, why: string, c: Call, id: string, url: string)
    requires text != ""
    ensures Serialize(NAMES, Message(AssistantRole, text, [], Some(why), None, [c])) ==
            Some(Obj([("role", Str("assistant")), ("content", Str(text)), ("reasoning_content", Str(why)),
                      ("tool_calls",
                       Arr([Obj([("id", Str(c.id)), ("type", Str(c.kind)),
                                 ("function", Obj([("name", Str(c.name)), ("arguments", Str(c.arguments))]))])]))]))
    ensures Serialize(NAMES, Message(ToolRole, text, [], None, Some(id), [])) ==
            Some(Obj([("role", Str("tool")), ("content", Str(text)), ("tool_call_id", Str(id))]))
    ensures Serialize(NAMES, Message(UserRole, text, [Url(url, Some(Low))], None, None, [])) ==
            Some(Obj([("role", Str("user")),
                      ("content",
                       Arr([Obj([("type", Str("text")), ("text", Str(text))]),
                            Obj([("type", Str("image_url")),
                                 ("image_url", Obj([("url", Str(url)), ("detail", Str("low"))]))])]))]))
  {
    AssistantFields(NAMES, text, why, c);
    ToolFields(NAMES, text, id);
    UserFields(NAMES, text, url, Low);
    ImageFields(NAMES, url, Low);
  }

  // ----- Reading

  /** The text chunk and the images one part of the array contributes; an unknown part gives neither. */
  function ReadPart(n: Names, part: Json, role: Role): (string, seq<ImageRef>)
  {
    var kind := AsString(Get(part, n.kind));
    if kind == Some(n.text) then
      var chunk := AsString(Get(part, n.text));
      (if chunk.Some? then chunk.value else "", [])
    else if kind == Some(n.imageUrl) && role == UserRole then
      var image := Get(part, n.imageUrl);
      var url := if image.Some? then AsString(Get(image.value, n.url)) else None;
      var detail := if image.Some? then AsString(Get(image.value, n.detail)) else None;
      ("",
       if url.None? then []
       else [Url(url.value, if detail.Some? then ParseDetail(detail.value) else None)])
    else ("", [])
  }

  function SplitParts(n: Names, parts: seq<Json>, role: Role): (string, seq<ImageRef>)
  {
    if parts == [] then ("", [])
    else
      var (chunk, images) := ReadPart(n, parts[0], role);
      var (text, more) := SplitParts(n, parts[1..], role);
      (chunk + text, images + more)
  }

  /** An optional string field: absent and null are the same. */
  function ReadOptional(j: Option<Json>): Option<Option<string>>
  {
    if j.None? || j.value.Null? then Some(None)
    else if j.value.Str? then Some(Some(j.value.text))
    else None
  }

  function ReadCall(n: Names, j: Json): Option<Call>
  {
    match Values(j, [n.id, n.kind, n.function_])
    case None => None
    case Some(v) =>
      if v[2].None? then None
      else
        match Values(v[2].value, [n.name, n.arguments])
        case None => None
        case Some(f) =>
          if AsString(v[0]).None? || AsString(v[1]).None? || AsString(f[0]).None? || AsString(f[1]).None? then None
          else Some(Call(AsString(v[0]).value, AsString(v[1]).value, AsString(f[0]).value, AsString(f[1]).value))
  }

  function ReadCalls(n: Names, items: seq<Json>): Option<seq<Call>>
  {
    if items == [] then Some([])
    else
      match (ReadCall(n, items[0]), ReadCalls(n, items[1..]))
      case (Some(c), Some(rest)) => Some([c] + rest)
      case _ => None
  }

  function ReadCallField(n: Names, j: Option<Json>): Option<seq<Call>>
  {
    if j.None? then Some([]) else if j.value.Arr? then ReadCalls(n, j.value.items) else None
  }

  function ReadContent(n: Names, j: Json, role: Role): Option<(string, seq<ImageRef>)>
  {
    match j
    case Str(text) => Some((text, []))
    case Arr(parts) => Some(SplitParts(n, parts, role))
    case _ => None
  }

  function MessageNames(n: Names): seq<string>
  {
    [n.role, n.content, n.reasoning, n.callId, n.calls]
  }

  function Deserialize(n: Names, j: Json): Option<Message>
  {
    match Values(j, MessageNames(n))
    case None => None
    case Some(v) => ReadFields(n, v[0], v[1], v[2], v[3], v[4])
  }

  function ReadFields(n: Names, role: Option<Json>, content: Option<Json>, reasoning: Option<Json>,
                      callId: Option<Json>, calls: Option<Json>): Option<Message>
  {
    if role.None? || content.None? || ParseRole(role.value).None? then None
    else
      var r := ParseRole(role.value).value;
      match (ReadOptional(reasoning), ReadOptional(callId), ReadCallField(n, calls), ReadContent(n, content.value, r))
      case (Some(why), Some(id), Some(list), Some((text, images))) => Some(Message(r, text, images, why, id, list))
      case _ => None
  }

  /** The reader takes a message as an array in field order as well; a longer one is refused. */
  lemma ArrayIsRead(n: Names, text: string, items: seq<Json>)
    ensures Deserialize(n, Arr([Str(USER_NAME), Str(text)])) == Some(Message(UserRole, text, [], None, None, []))
    ensures Deserialize(n, Arr([Str(USER_NAME), Str(text), Null, Null, Arr([])])) ==
            Some(Message(UserRole, text, [], None, None, []))
    ensures |items| > 5 ==> Deserialize(n, Arr(items)).None?
    ensures |items| < 2 ==> Deserialize(n, Arr(items)).None?
  {
    var pair := [Str(USER_NAME), Str(text)];
    var values := Values(Arr(pair), MessageNames(n)).value;
    assert values[0] == Some(pair[0]) && values[1] == Some(pair[1]);
    assert values[2].None? && values[3].None? && values[4].None?;
    var all := [Str(USER_NAME), Str(text), Null, Null, Arr([])];
    var fields := Values(Arr(all), MessageNames(n)).value;
    assert fields[0] == Some(all[0]) && fields[1] == Some(all[1]);
    assert fields[2] == Some(all[2]) && fields[3] == Some(all[3]) && fields[4] == Some(all[4]);
  }

  /** A message with one of its fields twice is refused. */
  lemma {:induction false} RepeatedIsRefused(n: Names, fields: seq<(string, Json)>, i: nat)
    requires i < 5 && Occurrences(fields, MessageNames(n)[i]) > 1
    ensures Deserialize(n, Obj(fields)).None?
  {
  }

  // ----- Printing, then reading

  lemma {:induction false} OccurrencesConcat(a: seq<(string, Json)>, b: seq<(string, Json)>, name: string)
    ensures Occurrences(a + b, name) == Occurrences(a, name) + Occurrences(b, name)
    ensures Last(a + b, name) == if Last(b, name).Some? then Last(b, name) else Last(a, name)
  {
    if a == [] {
      assert a + b == b;
    } else {
      assert (a + b)[1..] == a[1..] + b;
      OccurrencesConcat(a[1..], b, name);
    }
  }

  /** One field, or none. */
  lemma {:induction false} OneField(fields: seq<(string, Json)>, name: string)
    requires |fields| <= 1
    ensures fields == [] ==> Occurrences(fields, name) == 0 && Last(fields, name) == None
    ensures fields != [] && fields[0].0 == name ==>
              Occurrences(fields, name) == 1 && Last(fields, name) == Some(fields[0].1)
    ensures fields != [] && fields[0].0 != name ==> Occurrences(fields, name) == 0 && Last(fields, name) == None
  {
    if fields != [] {
      assert fields[1..] == [];
    }
  }

  /** Both fields of a two-field object are found. */
  lemma PairFound(x: (string, Json), y: (string, Json))
    requires x.0 != y.0
    ensures var fields := [x, y];
            && Occurrences(fields, x.0) == 1 && Occurrences(fields, y.0) == 1
            && Last(fields, x.0) == Some(x.1) && Last(fields, y.0) == Some(y.1)
  {
    assert [x, y][1..] == [y];
    OneField([y], x.0);
    OneField([y], y.0);
  }

  lemma TripleFound(x: (string, Json), y: (string, Json), z: (string, Json))
    requires x.0 != y.0 && x.0 != z.0 && y.0 != z.0
    ensures var fields := [x, y, z];
            && Occurrences(fields, x.0) == 1 && Occurrences(fields, y.0) == 1 && Occurrences(fields, z.0) == 1
            && Last(fields, x.0) == Some(x.1) && Last(fields, y.0) == Some(y.1) && Last(fields, z.0) == Some(z.1)
  {
    assert [x, y, z][1..] == [y, z] && [y, z][1..] == [z];
    PairFound(y, z);
    OneField([z], x.0);
  }

  lemma ImageObjectRead(n: Names, url: string, detail: Option<Detail>)
    requires Distinct(n)
    ensures var inner := ImageObject(n, url, detail);
            && Get(inner, n.url) == Some(Str(url))
            && Get(inner, n.detail) == if detail.Some? then Some(Str(DetailName(detail.value))) else None
  {
    var a := [(n.url, Str(url))];
    var b: seq<(string, Json)> := if detail.Some? then [(n.detail, Str(DetailName(detail.value)))] else [];
    OccurrencesConcat(a, b, n.url);
    OccurrencesConcat(a, b, n.detail);
    OneField(a, n.url);
    OneField(a, n.detail);
    OneField(b, n.url);
    OneField(b, n.detail);
  }

  lemma ImagePartRoundTrip(n: Names, image: ImageRef)
    requires Distinct(n) && image.Url?
    ensures ReadPart(n, ImagePart(n, image), UserRole) == ("", [image])
  {
    ImageObjectRead(n, image.url, image.detail);
    PairFound((n.kind, Str(n.imageUrl)), (n.imageUrl, ImageObject(n, image.url, image.detail)));
    if image.detail.Some? {
      DetailRoundTrip(image.detail.value);
    }
  }

  lemma {:induction false} ImagePartsRoundTrip(n: Names, images: seq<ImageRef>)
    requires Distinct(n) && Resolved(images)
    ensures SplitParts(n, ImageParts(n, images), UserRole) == ("", images)
  {
    if images != [] {
      ImagePartRoundTrip(n, images[0]);
      ImagePartsRoundTrip(n, images[1..]);
      var parts := ImageParts(n, images);
      assert parts[0] == ImagePart(n, images[0]) && parts[1..] == ImageParts(n, images[1..]);
      assert "" + "" == "" && [images[0]] + images[1..] == images;
    }
  }

  lemma ContentRoundTrip(n: Names, text: string, images: seq<ImageRef>, role: Role)
    requires Distinct(n) && Resolved(images) && (images != [] ==> role == UserRole)
    ensures ReadContent(n, ContentField(n, text, images), role) == Some((text, images))
  {
    if images != [] {
      ImagePartsRoundTrip(n, images);
      var parts := ImageParts(n, images);
      if text == "" {
        assert [] + parts == parts;
      } else {
        var first := TextPart(n, text);
        assert ([first] + parts)[1..] == parts;
        PairFound((n.kind, Str(n.text)), (n.text, Str(text)));
        assert ReadPart(n, first, role) == (text, []);
        assert text + "" == text && [] + images == images;
      }
    }
  }

  lemma CallRoundTrip(n: Names, c: Call)
    requires Distinct(n)
    ensures ReadCall(n, CallJson(n, c)) == Some(c)
  {
    var function_ := Obj([(n.name, Str(c.name)), (n.arguments, Str(c.arguments))]);
    TripleFound((n.id, Str(c.id)), (n.kind, Str(c.kind)), (n.function_, function_));
    PairFound((n.name, Str(c.name)), (n.arguments, Str(c.arguments)));
  }

  lemma {:induction false} CallsRoundTrip(n: Names, calls: seq<Call>)
    requires Distinct(n)
    ensures ReadCalls(n, CallsJson(n, calls)) == Some(calls)
  {
    if calls != [] {
      CallRoundTrip(n, calls[0]);
      CallsRoundTrip(n, calls[1..]);
      var items := CallsJson(n, calls);
      assert items[0] == CallJson(n, calls[0]) && items[1..] == CallsJson(n, calls[1..]);
      assert [calls[0]] + calls[1..] == calls;
    }
  }

  lemma {:induction false} FiveFields(a: seq<(string, Json)>, b: seq<(string, Json)>, c: seq<(string, Json)>,
                                      d: seq<(string, Json)>, e: seq<(string, Json)>, name: string)
    requires |a| <= 1 && |b| <= 1 && |c| <= 1 && |d| <= 1 && |e| <= 1
    ensures var all := a + b + c + d + e;
            && Occurrences(all, name) == Occurrences(a, name) + Occurrences(b, name) + Occurrences(c, name)
              + Occurrences(d, name) + Occurrences(e, name)
            && Last(all, name) ==
               if Last(e, name).Some? then Last(e, name)
               else if Last(d, name).Some? then Last(d, name)
               else if Last(c, name).Some? then Last(c, name)
               else if Last(b, name).Some? then Last(b, name)
               else Last(a, name)
  {
    OccurrencesConcat(a + b + c + d, e, name);
    OccurrencesConcat(a + b + c, d, name);
    OccurrencesConcat(a + b, c, name);
    OccurrencesConcat(a, b, name);
  }

  lemma {:induction false} FieldOf(n: Names, m: Message, name: string)
    requires Distinct(n) && Serialize(n, m).Some? && name in MessageNames(n)
    ensures var fields := Serialize(n, m).value.fields;
            && Occurrences(fields, name) <= 1
            && Last(fields, name) ==
               if name == n.role then Some(Str(RoleName(m.role)))
               else if name == n.content then Some(ContentField(n, m.content, m.images))
               else if name == n.reasoning then (if m.reasoning.Some? then Some(Str(m.reasoning.value)) else None)
               else if name == n.callId then (if m.callId.Some? then Some(Str(m.callId.value)) else None)
               else if m.calls == [] then None else Some(Arr(CallsJson(n, m.calls)))
  {
    var a, b := [(n.role, Str(RoleName(m.role)))], [(n.content, ContentField(n, m.content, m.images))];
    var c, d := Optional(n.reasoning, m.reasoning), Optional(n.callId, m.callId);
    var e: seq<(string, Json)> := if m.calls == [] then [] else [(n.calls, Arr(CallsJson(n, m.calls)))];
    assert Serialize(n, m).value.fields == a + b + c + d + e;
    FiveFields(a, b, c, d, e, name);
    OneField(a, name);
    OneField(b, name);
    OneField(c, name);
    OneField(d, name);
    OneField(e, name);
  }

  lemma {:induction false} FieldsRoundTrip(n: Names, m: Message)
    requires Distinct(n) && Serialize(n, m).Some?
    ensures ReadFields(n, Some(Str(RoleName(m.role))), Some(ContentField(n, m.content, m.images)),
                       if m.reasoning.Some? then Some(Str(m.reasoning.value)) else None,
                       if m.callId.Some? then Some(Str(m.callId.value)) else None,
                       if m.calls == [] then None else Some(Arr(CallsJson(n, m.calls)))) == Some(m)
  {
    RoleRoundTrip(m.role);
    ContentRoundTrip(n, m.content, m.images, m.role);
    CallsRoundTrip(n, m.calls);
  }

  lemma RoundTripOver(n: Names, m: Message)
    requires Distinct(n) && Serialize(n, m).Some?
    ensures Deserialize(n, Serialize(n, m).value) == Some(m)
  {
    var names := MessageNames(n);
    forall i | 0 <= i < |names|
      ensures Occurrences(Serialize(n, m).value.fields, names[i]) <= 1
    {
      FieldOf(n, m, names[i]);
    }
    FieldOf(n, m, n.role);
    FieldOf(n, m, n.content);
    FieldOf(n, m, n.reasoning);
    FieldOf(n, m, n.callId);
    FieldOf(n, m, n.calls);
    FieldsRoundTrip(n, m);
  }

  /** Every message the printer accepts reads back as itself. */
  lemma RoundTrip(m: Message)
    requires Serialize(NAMES, m).Some?
    ensures Deserialize(NAMES, Serialize(NAMES, m).value) == Some(m)
  {
    NamesAreDistinct();
    RoundTripOver(NAMES, m);
  }

  // ----- Reading, then printing

  lemma {:induction false} SplitIsSendable(n: Names, parts: seq<Json>, role: Role)
    ensures var (text, images) := SplitParts(n, parts, role); Resolved(images) && (images != [] ==> role == UserRole)
  {
    if parts != [] {
      SplitIsSendable(n, parts[1..], role);
    }
  }

  /** Every message the reader accepts, whatever the document, the printer accepts. */
  lemma ReadIsSendable(n: Names, j: Json)
    requires Deserialize(n, j).Some?
    ensures Serialize(n, Deserialize(n, j).value).Some?
  {
    var v := Values(j, MessageNames(n)).value;
    if v[1].value.Arr? {
      SplitIsSendable(n, v[1].value.items, ParseRole(v[0].value).value);
    }
  }

  // ----- The loops

  lemma {:induction false} SplitSnoc(n: Names, parts: seq<Json>, role: Role, i: nat, text: string,
                                     images: seq<ImageRef>)
    requires i < |parts|
    ensures var (rest, more) := SplitParts(n, parts[i..], role);
            var (chunk, found) := ReadPart(n, parts[i], role);
            var (rest', more') := SplitParts(n, parts[i + 1..], role);
            text + rest == text + chunk + rest' && images + more == images + found + more'
  {
    assert parts[i..][0] == parts[i] && parts[i..][1..] == parts[i + 1..];
    var (chunk, found) := ReadPart(n, parts[i], role);
    var (rest, more) := SplitParts(n, parts[i + 1..], role);
    Assoc(text, chunk, rest);
    Assoc(images, found, more);
  }

  method SplitPartsLoop(n: Names, parts: seq<Json>, role: Role) returns (text: string, images: seq<ImageRef>)
    ensures (text, images) == SplitParts(n, parts, role)
  {
    text, images := "", [];
    ghost var all := SplitParts(n, parts, role);
    assert parts[0..] == parts && "" + all.0 == all.0 && [] + all.1 == all.1;
    for i := 0 to |parts|
      invariant var (rest, more) := SplitParts(n, parts[i..], role);
                text + rest == all.0 && images + more == all.1
    {
      SplitSnoc(n, parts, role, i, text, images);
      var (chunk, found) := ReadPart(n, parts[i], role);
      text, images := text + chunk, images + found;
    }
    assert text + "" == text && images + [] == images;
  }

  method ContentParts(n: Names, text: string, images: seq<ImageRef>) returns (content: Json)
    requires Resolved(images)
    ensures content == ContentField(n, text, images)
  {
    if images == [] {
      return Str(text);
    }
    var parts: seq<Json> := if text == "" then [] else [TextPart(n, text)];
    ghost var all := parts + ImageParts(n, images);
    assert images[0..] == images;
    for i := 0 to |images|
      invariant parts + ImageParts(n, images[i..]) == all
    {
      assert images[i..][0] == images[i] && images[i..][1..] == images[i + 1..];
      assert parts + ([ImagePart(n, images[i])] + ImageParts(n, images[i + 1..]))
          == parts + [ImagePart(n, images[i])] + ImageParts(n, images[i + 1..]);
      parts := parts + [ImagePart(n, images[i])];
    }
    assert parts + [] == parts;
    return Arr(parts);
  }
}
