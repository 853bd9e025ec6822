/** The records the compiler reads (JSDoc blocks of tags, as doctrine produces them)
    and the Swagger 2.0 pieces it writes. */
module Annotations {
  import opened Wrappers

  /** A tag's `{type}` node; doctrine leaves `name` out for compound types. */
  datatype TypeToken = TypeToken(name: Option<string>)

  /** One `@title {type} name description` tag of a JSDoc block. */
  datatype Tag = Tag(title: string, name: string, typ: Option<TypeToken>, description: string)

  /** One JSDoc comment: its free text and its tags in source order. */
  datatype Block = Block(description: Option<string>, tags: seq<Tag>)

  /** A decoded `@route METHOD uri` line; `verb` is the source's `method`. */
  datatype Route = Route(verb: string, uri: string)

  /** A decoded `@param` name `name.in.required`. */
  datatype Field = Field(name: string, parameterType: string, required: bool)

  /** `{"$ref": ref}`. */
  datatype SchemaRef = SchemaRef(ref: string)

  /** One entry of an operation's `parameters` array. */
  datatype Parameter = Parameter(
    name: string,
    location: string,
    description: string,
    required: bool,
    typ: Option<string>,
    schema: Option<SchemaRef>)

  /** One entry of an operation's `responses` object; `typ` and `schema` are attached
      together or not at all. */
  datatype Response = Response(description: Option<string>, typ: Option<string>, schema: Option<SchemaRef>)

  /** One entry of the fragment's `tags` list. */
  datatype TagGroup = TagGroup(name: string, description: Option<string>)

  /** One entry of a definition's `properties` object. */
  datatype Property = Property(typ: Option<string>, schema: Option<SchemaRef>)

  /** The `details` object a typedef block produces. */
  datatype Definition = Definition(required: seq<string>, properties: map<string, Property>)

  datatype Typedef = Typedef(typeName: string, details: Definition)

  /** What an operation's `parameters` field holds while a block is folded: a fresh
      empty array, or the one `params` array the whole block shares. */
  datatype ParamList = NewArray | SharedParams

  /** One `paths[uri][method]` object. `P` is `ParamList` during the fold and the
      parameter list itself once the fragment is read. */
  datatype Operation<P> = Operation(
    description: string,
    tags: seq<string>,
    parameters: P,
    operationId: Option<string>,
    summary: Option<string>,
    produces: Option<seq<string>>,
    consumes: Option<seq<string>>,
    responses: Option<map<string, Response>>)

  /** `paths[uri][method]`. */
  type Paths<P> = map<string, map<string, Operation<P>>>

  /** What one block compiles to. `paths` is the object the source returns under the
      key `parameters`. */
  datatype Fragment = Fragment(
    paths: Paths<seq<Parameter>>,
    tags: seq<TagGroup>,
    definitions: map<string, Definition>)
}
