/** The per-tag decoders of `lib/swagger.js`: each turns one tag's text, or a block's
    tag list, into a piece of Swagger. None of them has state. */
module Decoders {
  import opened Wrappers
  import opened JsText
  import opened Annotations

  const DefinitionsPrefix: string := "#/definitions/"

  // ---------------------------------------------------------------- routes

  /** `parseRoute`: a `METHOD uri` line split on single spaces. */
  function ParseRoute(str: string): (r: Route)
    ensures r.verb != ""
    ensures forall i :: 0 <= i < |r.verb| ==> !IsUpperAscii(r.verb[i])
    ensures ' ' !in r.uri
  {
    var split := Split(str, ' ');
    Route(Or(Some(Lower(split[0])), "get"), Or(Seg(split, 1), ""))
  }

  /** A route line made of space-free tokens: the method is the first token lower-cased
      (any verb passes), `"get"` when that token is empty; the uri is the second token,
      `""` when there is none. Tokens after the second are ignored. */
  lemma {:induction false} ParseRouteTokens(tokens: seq<string>)
    requires |tokens| >= 1
    requires forall i :: 0 <= i < |tokens| ==> ' ' !in tokens[i]
    ensures ParseRoute(Join(tokens, ' ')).verb == if tokens[0] == "" then "get" else Lower(tokens[0])
    ensures ParseRoute(Join(tokens, ' ')).uri == if |tokens| > 1 then tokens[1] else ""
  {
    SplitJoin(tokens, ' ');
  }

  /** The first segment of a split is the text before the first separator. */
  lemma FirstSegment(s: string, sep: char)
    ensures var first := Split(s, sep)[0];
      && |first| <= |s| && first == s[..|first|]
      && (|first| < |s| ==> s[|first|] == sep)
      && (sep !in s ==> Split(s, sep) == [s])
  {
    var parts := Split(s, sep);
    if |parts| > 1 {
      assert s == parts[0] + [sep] + Join(parts[1..], sep);
    }
    if sep !in s {
      SplitWithoutSep(s, sep);
    }
  }

  // ---------------------------------------------------------------- params

  /** `parseField`: a dotted `name.in.required` parameter name. */
  function ParseField(str: string): (f: Field)
    ensures '.' !in f.name && '.' !in f.parameterType
    ensures f.parameterType != ""
  {
    var split := Split(str, '.');
    Field(split[0], Or(Seg(split, 1), "get"), Seg(split, 2) == Some("required"))
  }

  /** The parameter's name is the text before the first `.`, and a name without a `.` is
      an optional parameter of the default location `get`. */
  lemma ParseFieldName(str: string)
    ensures var f := ParseField(str);
      && |f.name| <= |str| && f.name == str[..|f.name|] && (|f.name| < |str| ==> str[|f.name|] == '.')
      && ('.' !in str ==> f.parameterType == "get" && !f.required)
  {
    FirstSegment(str, '.');
  }

  /** A dotted name made of dot-free segments: the name is segment 0, the location is
      segment 1 or `"get"` when it is missing or empty, and `required` holds exactly when
      segment 2 is the word `required`. */
  lemma {:induction false} ParseFieldSegments(segs: seq<string>)
    requires |segs| >= 1
    requires forall i :: 0 <= i < |segs| ==> '.' !in segs[i]
    ensures ParseField(Join(segs, '.')).name == segs[0]
    ensures ParseField(Join(segs, '.')).parameterType == if |segs| > 1 && segs[1] != "" then segs[1] else "get"
    ensures ParseField(Join(segs, '.')).required <==> |segs| > 2 && segs[2] == "required"
  {
    SplitJoin(segs, '.');
  }

  // ---------------------------------------------------------------- types

  /** The `X` of a type name `X.model…`, when its second dotted segment is `model`. */
  function ModelName(name: string): (m: Option<string>)
    ensures m.Some? ==> '.' !in m.value
  {
    var spl := Split(name, '.');
    if |spl| > 1 && spl[1] == "model" then Some(spl[0]) else None
  }

  /** A model name is read off a type name that starts with it followed by `.model`, and
      the `model` segment ends there or at a further `.`. */
  lemma ModelNamePrefix(name: string)
    ensures var m := ModelName(name);
      m.Some? ==>
        && |name| >= |m.value| + 6
        && name[..|m.value| + 6] == m.value + ".model"
        && (|name| == |m.value| + 6 || name[|m.value| + 6] == '.')
  {
    var spl := Split(name, '.');
    if |spl| > 1 && spl[1] == "model" {
      var tail := Join(spl[2..], '.');
      assert spl[1..] == ["model"] + spl[2..];
      assert Join(spl[1..], '.') == if |spl| > 2 then "model" + ['.'] + tail else "model";
      assert name == spl[0] + ['.'] + Join(spl[1..], '.');
    }
  }

  /** `parseType`: total. Undefined for a missing token, `"string"` for a token without
      a name, the model name for `X.model…`, the name itself otherwise. */
  function ParseType(t: Option<TypeToken>): (r: Option<string>)
    ensures r.None? <==> t.None?
    ensures t.Some? && Or(t.value.name, "") == "" ==> r == Some("string")
  {
    match t
    case None => None
    case Some(tok) =>
      if Or(tok.name, "") == "" then Some("string")
      else
        match ModelName(tok.name.value)
        case Some(m) => Some(m)
        case None => tok.name
  }

  /** `parseSchema`: a `$ref` into the definitions exactly for `X.model…` names. It has
      no guard for a missing token, whose `.name` JavaScript cannot read. */
  function ParseSchema(t: Option<TypeToken>): (r: Result<Option<SchemaRef>>)
    ensures r.Err? <==> t.None?
    ensures r.Ok? && r.value.Some? ==> ParseType(t).Some? && r.value.value.ref == DefinitionsPrefix + ParseType(t).value
    ensures t.Some? && Or(t.value.name, "") == "" ==> r == Ok(None)
    ensures t.Some? && Or(t.value.name, "") != "" ==> r.Ok? && (r.value.Some? <==> ParseType(t) != t.value.name)
  {
    match t
    case None => Err(TypeError("Cannot read properties of undefined (reading 'name')"))
    case Some(tok) =>
      if Or(tok.name, "") == "" then Ok(None)
      else
        match ModelName(tok.name.value)
        case Some(m) => Ok(Some(SchemaRef(DefinitionsPrefix + m)))
        case None => Ok(None)
  }

  /** A type named by dot-free segments: `X.model…` resolves to the type `X` with a
      reference to `#/definitions/X`; any other name is kept whole and gets no schema. */
  lemma {:induction false} ParseTypeSegments(segs: seq<string>)
    requires |segs| >= 1
    requires forall i :: 0 <= i < |segs| ==> '.' !in segs[i]
    requires Join(segs, '.') != ""
    ensures ParseType(Some(TypeToken(Some(Join(segs, '.')))))
         == Some(if |segs| > 1 && segs[1] == "model" then segs[0] else Join(segs, '.'))
    ensures ParseSchema(Some(TypeToken(Some(Join(segs, '.')))))
         == Ok(if |segs| > 1 && segs[1] == "model" then Some(SchemaRef(DefinitionsPrefix + segs[0])) else None)
  {
    SplitJoin(segs, '.');
  }

  /** JavaScript truthiness of a type name. */
  predicate Truthy(s: Option<string>)
  {
    s.Some? && s.value != ""
  }

  // ---------------------------------------------------------------- returns

  predicate IsReturnTag(t: Tag)
  {
    t.title == "returns" || t.title == "return"
  }

  /** The status code a return tag is filed under: its description up to the first `-`. */
  function ReturnKey(t: Tag): (k: string)
    ensures '-' !in k
  {
    Split(t.description, '-')[0]
  }

  /** The status code is the longest `-`-free prefix of the description: it is all of it,
      or it stops right before the first `-`. */
  lemma ReturnKeyPrefix(t: Tag)
    ensures var k := ReturnKey(t);
      |k| <= |t.description| && k == t.description[..|k|] && (|k| < |t.description| ==> t.description[|k|] == '-')
  {
    FirstSegment(t.description, '-');
  }

  /** The response one return tag records. */
  function ReturnEntry(t: Tag): (e: Response)
    ensures e.description == Seg(Split(t.description, '-'), 1)
    ensures e.typ.Some? <==> Truthy(ParseType(t.typ))
    ensures e.typ.Some? ==> e.typ == ParseType(t.typ)
    ensures e.schema.Some? ==> e.typ.Some? && e.schema.value.ref == DefinitionsPrefix + e.typ.value
    ensures e.typ.Some? ==> t.typ.Some? && Ok(e.schema) == ParseSchema(t.typ)
    ensures e.typ.None? ==> e.schema.None?
  {
    var description := Split(t.description, '-');
    var ty := ParseType(t.typ);
    if Truthy(ty) then Response(Seg(description, 1), ty, ParseSchema(t.typ).value)
    else Response(Seg(description, 1), None, None)
  }

  /** Some later return tag of `tags` is filed under the same status code as tag `i`. */
  predicate ReturnOverridden(tags: seq<Tag>, i: nat)
    requires i < |tags|
  {
    exists j :: i < j < |tags| && IsReturnTag(tags[j]) && ReturnKey(tags[j]) == ReturnKey(tags[i])
  }

  /** `parseReturn`: the responses of a block. Only `return`/`returns` tags count, each
      is filed under its status code, and the last tag with a given code wins. */
  function ParseReturn(tags: seq<Tag>): (rets: map<string, Response>)
    ensures forall k :: k in rets <==> exists i :: 0 <= i < |tags| && IsReturnTag(tags[i]) && ReturnKey(tags[i]) == k
    ensures forall i :: 0 <= i < |tags| && IsReturnTag(tags[i]) && !ReturnOverridden(tags, i)
              ==> ReturnKey(tags[i]) in rets && rets[ReturnKey(tags[i])] == ReturnEntry(tags[i])
  {
    if |tags| == 0 then map[]
    else
      var prefix := tags[..|tags| - 1];
      var rets := ParseReturn(prefix);
      var t := tags[|tags| - 1];
      var rets' := if IsReturnTag(t) then rets[ReturnKey(t) := ReturnEntry(t)] else rets;
      ReturnsExtend(tags, rets, rets');
      rets'
  }

  /** One more iteration of `parseReturn`'s loop keeps its two promises. */
  lemma ReturnsExtend(tags: seq<Tag>, rets: map<string, Response>, rets': map<string, Response>)
    requires |tags| > 0
    requires forall k :: k in rets <==> exists i :: 0 <= i < |tags| - 1 && IsReturnTag(tags[i]) && ReturnKey(tags[i]) == k
    requires forall i :: 0 <= i < |tags| - 1 && IsReturnTag(tags[i]) && !ReturnOverridden(tags[..|tags| - 1], i)
               ==> ReturnKey(tags[i]) in rets && rets[ReturnKey(tags[i])] == ReturnEntry(tags[i])
    requires rets' == if IsReturnTag(tags[|tags| - 1]) then rets[ReturnKey(tags[|tags| - 1]) := ReturnEntry(tags[|tags| - 1])] else rets
    ensures forall k :: k in rets' <==> exists i :: 0 <= i < |tags| && IsReturnTag(tags[i]) && ReturnKey(tags[i]) == k
    ensures forall i :: 0 <= i < |tags| && IsReturnTag(tags[i]) && !ReturnOverridden(tags, i)
              ==> ReturnKey(tags[i]) in rets' && rets'[ReturnKey(tags[i])] == ReturnEntry(tags[i])
  {
    var last := |tags| - 1;
    var prefix := tags[..last];
    forall k | k in rets'
      ensures exists i :: 0 <= i < |tags| && IsReturnTag(tags[i]) && ReturnKey(tags[i]) == k
    {
      if IsReturnTag(tags[last]) && k == ReturnKey(tags[last]) {
      } else {
        var i :| 0 <= i < last && IsReturnTag(tags[i]) && ReturnKey(tags[i]) == k;
      }
    }
    forall i | 0 <= i < |tags| && IsReturnTag(tags[i]) && !ReturnOverridden(tags, i)
      ensures ReturnKey(tags[i]) in rets' && rets'[ReturnKey(tags[i])] == ReturnEntry(tags[i])
    {
      if i < last {
        if ReturnOverridden(prefix, i) {
          assert false;
        }
        if IsReturnTag(tags[last]) {
          assert ReturnKey(tags[last]) != ReturnKey(tags[i]);
        }
      }
    }
  }

  // ---------------------------------------------------------------- descriptions and groups

  /** `parseDescription`: the block's text, `""` when absent. */
  function ParseDescription(b: Block): (d: string)
    ensures b.description.Some? ==> d == b.description.value
    ensures b.description.None? ==> d == ""
  {
    Or(b.description, "")
  }

  /** `parseTag`: the first `group` tag's description split on `-`, or
      `["default", ""]` when the block has no group tag. */
  function ParseTag(tags: seq<Tag>): (group: seq<string>)
    ensures |group| >= 1
    ensures (forall i :: 0 <= i < |tags| ==> tags[i].title != "group") ==> group == ["default", ""]
    ensures forall i :: 0 <= i < |tags| && tags[i].title == "group" && (forall j :: 0 <= j < i ==> tags[j].title != "group")
              ==> group == Split(tags[i].description, '-')
  {
    if |tags| == 0 then ["default", ""]
    else if tags[0].title == "group" then Split(tags[0].description, '-')
    else
      assert forall i :: 0 < i < |tags| ==> tags[1..][i - 1] == tags[i];
      ParseTag(tags[1..])
  }

  /** `parseProduces`: the whitespace-separated MIME types. No entry holds whitespace, and
      joining the entries with single spaces gives the text with each whitespace run
      collapsed to one space, so nothing but whitespace is lost. */
  function ParseProduces(str: string): (types: seq<string>)
    ensures |types| >= 1
    ensures forall i, k :: 0 <= i < |types| && 0 <= k < |types[i]| ==> !IsSpace(types[i][k])
    ensures Join(types, ' ') == Collapse(str)
  {
    SplitWsCollapse(str);
    SplitWs(str)
  }

  /** `parseConsumes`: read exactly as `parseProduces`. */
  function ParseConsumes(str: string): (types: seq<string>)
    ensures |types| >= 1
    ensures forall i, k :: 0 <= i < |types| && 0 <= k < |types[i]| ==> !IsSpace(types[i][k])
    ensures Join(types, ' ') == Collapse(str)
  {
    SplitWsCollapse(str);
    SplitWs(str)
  }

  // ---------------------------------------------------------------- typedefs

  predicate IsPropertyTag(t: Tag)
  {
    t.title == "property"
  }

  /** A property whose second dotted segment is `required`. */
  predicate IsRequiredProperty(t: Tag)
  {
    Seg(Split(t.name, '.'), 1) == Some("required")
  }

  /** The key a property is stored under: the name before the first dot for a required
      property, the whole name otherwise. */
  function PropertyKey(t: Tag): (k: string)
    ensures IsRequiredProperty(t) ==> '.' !in k && Join([k, "required"] + Split(t.name, '.')[2..], '.') == t.name
    ensures !IsRequiredProperty(t) ==> k == t.name
  {
    var split := Split(t.name, '.');
    if IsRequiredProperty(t) then
      assert split == [split[0], "required"] + split[2..];
      split[0]
    else t.name
  }

  /** The property object one property tag records. */
  function PropertyOf(t: Tag): (r: Result<Property>)
    ensures r.Err? <==> t.typ.None?
    ensures r.Ok? ==> r.value.typ == ParseType(t.typ) && Ok(r.value.schema) == ParseSchema(t.typ)
  {
    var schema :- ParseSchema(t.typ);
    Ok(Property(ParseType(t.typ), schema))
  }

  /** The stripped names of the required properties among `tags`, in order. */
  function RequiredNames(tags: seq<Tag>): seq<string>
  {
    if |tags| == 0 then []
    else
      (if IsPropertyTag(tags[0]) && IsRequiredProperty(tags[0]) then [PropertyKey(tags[0])] else [])
      + RequiredNames(tags[1..])
  }

  lemma {:induction false} RequiredNamesAppend(tags: seq<Tag>, t: Tag)
    ensures RequiredNames(tags + [t])
         == RequiredNames(tags) + (if IsPropertyTag(t) && IsRequiredProperty(t) then [PropertyKey(t)] else [])
    decreases |tags|
  {
    if |tags| > 0 {
      assert (tags + [t])[1..] == tags[1..] + [t];
      RequiredNamesAppend(tags[1..], t);
    }
  }

  /** A later property tag among `tags[..n]` is stored under the same key as tag `i`. */
  predicate PropertyRedefined(tags: seq<Tag>, i: nat, n: nat)
    requires i < n <= |tags|
  {
    exists j :: i < j < n && IsPropertyTag(tags[j]) && PropertyKey(tags[j]) == PropertyKey(tags[i])
  }

  /** The typedef details after the loop has visited `tags[1..n]`. Non-property tags are
      ignored; a property without a type fails as `parseSchema` does; every key seen is
      present, holding its last property; `required` lists the required properties'
      stripped names in order. */
  function TypedefUpTo(tags: seq<Tag>, n: nat): (r: Result<Definition>)
    requires 1 <= n <= |tags|
    ensures r.Err? <==> exists i :: 1 <= i < n && IsPropertyTag(tags[i]) && tags[i].typ.None?
    ensures r.Ok? ==> forall k :: k in r.value.properties
                        <==> exists i :: 1 <= i < n && IsPropertyTag(tags[i]) && PropertyKey(tags[i]) == k
    ensures r.Ok? ==> forall i :: 1 <= i < n && IsPropertyTag(tags[i]) && !PropertyRedefined(tags, i, n)
                        ==> PropertyOf(tags[i]).Ok?
                            && PropertyKey(tags[i]) in r.value.properties
                            && r.value.properties[PropertyKey(tags[i])] == PropertyOf(tags[i]).value
    ensures r.Ok? ==> r.value.required == RequiredNames(tags[1..n])
    decreases n
  {
    if n == 1 then
      Ok(Definition([], map[]))
    else
      var d :- TypedefUpTo(tags, n - 1);
      var d' :- TypedefNext(tags[n - 1], d);
      TypedefExtend(tags, n, d, d');
      Ok(d')
  }

  /** One iteration of `parseTypedef`'s loop: a property tag is recorded under its key,
      and its stripped name is appended to `required` when it is required; any other tag
      is skipped. */
  function TypedefNext(t: Tag, d: Definition): (r: Result<Definition>)
    ensures r.Err? <==> IsPropertyTag(t) && t.typ.None?
    ensures !IsPropertyTag(t) ==> r == Ok(d)
    ensures IsPropertyTag(t) && r.Ok? ==>
              && PropertyKey(t) in r.value.properties
              && r.value.properties[PropertyKey(t)] == PropertyOf(t).value
              && (forall k :: k != PropertyKey(t) ==> (k in r.value.properties <==> k in d.properties))
              && (forall k :: k != PropertyKey(t) && k in d.properties ==> r.value.properties[k] == d.properties[k])
              && r.value.required == d.required + (if IsRequiredProperty(t) then [PropertyKey(t)] else [])
  {
    if !IsPropertyTag(t) then Ok(d)
    else
      var p :- PropertyOf(t);
      var key := PropertyKey(t);
      Ok(Definition(if IsRequiredProperty(t) then d.required + [key] else d.required, d.properties[key := p]))
  }

  /** The effect of one more iteration of `parseTypedef`'s loop on the definition. */
  predicate TypedefStep(tags: seq<Tag>, n: nat, d: Definition, d': Definition)
    requires 2 <= n <= |tags|
  {
    TypedefNext(tags[n - 1], d) == Ok(d')
  }

  /** One more iteration keeps all three promises of `TypedefUpTo`. */
  lemma TypedefExtend(tags: seq<Tag>, n: nat, d: Definition, d': Definition)
    requires 2 <= n <= |tags| && TypedefStep(tags, n, d, d')
    requires forall k :: k in d.properties <==> exists i :: 1 <= i < n - 1 && IsPropertyTag(tags[i]) && PropertyKey(tags[i]) == k
    requires forall i :: 1 <= i < n - 1 && IsPropertyTag(tags[i]) && !PropertyRedefined(tags, i, n - 1)
               ==> PropertyOf(tags[i]).Ok?
                   && PropertyKey(tags[i]) in d.properties
                   && d.properties[PropertyKey(tags[i])] == PropertyOf(tags[i]).value
    requires d.required == RequiredNames(tags[1..n - 1])
    ensures forall k :: k in d'.properties <==> exists i :: 1 <= i < n && IsPropertyTag(tags[i]) && PropertyKey(tags[i]) == k
    ensures forall i :: 1 <= i < n && IsPropertyTag(tags[i]) && !PropertyRedefined(tags, i, n)
              ==> PropertyOf(tags[i]).Ok?
                  && PropertyKey(tags[i]) in d'.properties
                  && d'.properties[PropertyKey(tags[i])] == PropertyOf(tags[i]).value
    ensures d'.required == RequiredNames(tags[1..n])
  {
    TypedefExtendKeys(tags, n, d, d');
    TypedefExtendLastWins(tags, n, d, d');
    TypedefExtendRequired(tags, n, d, d');
  }

  /** One more iteration keeps "every key seen, and only those, is present". */
  lemma TypedefExtendKeys(tags: seq<Tag>, n: nat, d: Definition, d': Definition)
    requires 2 <= n <= |tags| && TypedefStep(tags, n, d, d')
    requires forall k :: k in d.properties <==> exists i :: 1 <= i < n - 1 && IsPropertyTag(tags[i]) && PropertyKey(tags[i]) == k
    ensures forall k :: k in d'.properties <==> exists i :: 1 <= i < n && IsPropertyTag(tags[i]) && PropertyKey(tags[i]) == k
  {
    var t := tags[n - 1];
    forall k | k in d'.properties
      ensures exists i :: 1 <= i < n && IsPropertyTag(tags[i]) && PropertyKey(tags[i]) == k
    {
      if IsPropertyTag(t) && k == PropertyKey(t) {
      } else {
        var i :| 1 <= i < n - 1 && IsPropertyTag(tags[i]) && PropertyKey(tags[i]) == k;
      }
    }
  }

  /** One more iteration keeps "each key holds its last property". */
  lemma TypedefExtendLastWins(tags: seq<Tag>, n: nat, d: Definition, d': Definition)
    requires 2 <= n <= |tags| && TypedefStep(tags, n, d, d')
    requires forall i :: 1 <= i < n - 1 && IsPropertyTag(tags[i]) && !PropertyRedefined(tags, i, n - 1)
               ==> PropertyOf(tags[i]).Ok?
                   && PropertyKey(tags[i]) in d.properties
                   && d.properties[PropertyKey(tags[i])] == PropertyOf(tags[i]).value
    ensures forall i :: 1 <= i < n && IsPropertyTag(tags[i]) && !PropertyRedefined(tags, i, n)
              ==> PropertyOf(tags[i]).Ok?
                  && PropertyKey(tags[i]) in d'.properties
                  && d'.properties[PropertyKey(tags[i])] == PropertyOf(tags[i]).value
  {
    var t := tags[n - 1];
    forall i | 1 <= i < n && IsPropertyTag(tags[i]) && !PropertyRedefined(tags, i, n)
      ensures PropertyOf(tags[i]).Ok?
      ensures PropertyKey(tags[i]) in d'.properties
      ensures d'.properties[PropertyKey(tags[i])] == PropertyOf(tags[i]).value
    {
      if i < n - 1 {
        if PropertyRedefined(tags, i, n - 1) {
          assert false;
        }
        if IsPropertyTag(t) {
          assert PropertyKey(t) != PropertyKey(tags[i]);
        }
      }
    }
  }

  /** One more iteration keeps "required lists the required names in order". */
  lemma TypedefExtendRequired(tags: seq<Tag>, n: nat, d: Definition, d': Definition)
    requires 2 <= n <= |tags| && TypedefStep(tags, n, d, d')
    requires d.required == RequiredNames(tags[1..n - 1])
    ensures d'.required == RequiredNames(tags[1..n])
  {
    RequiredNamesAppend(tags[1..n - 1], tags[n - 1]);
    assert tags[1..n] == tags[1..n - 1] + [tags[n - 1]];
  }

  /** `parseTypedef`: the type is named by the first tag; the rest of the block is read
      as its properties. */
  function ParseTypedef(tags: seq<Tag>): (r: Result<Typedef>)
    requires |tags| >= 1
    ensures r.Err? <==> exists i :: 1 <= i < |tags| && IsPropertyTag(tags[i]) && tags[i].typ.None?
    ensures r.Ok? ==> r.value.typeName == tags[0].name && Ok(r.value.details) == TypedefUpTo(tags, |tags|)
  {
    var details :- TypedefUpTo(tags, |tags|);
    Ok(Typedef(tags[0].name, details))
  }
}
