/** `fileFormat` and `filterJsDocComments` of `lib/swagger.js`: a block's tags are
    folded, in order, into one Swagger fragment. The fold's state is the current route
    (unset until the first `route` tag), the block's shared `params` array, the paths
    object and the tag-group list. */
module Assembler {
  import opened Wrappers
  import opened JsText
  import opened Annotations
  import opened Decoders

  // ---------------------------------------------------------------- paths[uri][method]

  /** `paths[r.uri][r.method]`, when it exists. */
  function GetOp<P>(paths: Paths<P>, r: Route): Option<Operation<P>>
  {
    if r.uri in paths && r.verb in paths[r.uri] then Some(paths[r.uri][r.verb]) else None
  }

  /** `paths[r.uri] = paths[r.uri] || {}; paths[r.uri][r.method] = op`: only that slot changes. */
  function PutOp<P(==)>(paths: Paths<P>, r: Route, op: Operation<P>): (p: Paths<P>)
    ensures forall r' :: GetOp(p, r') == if r' == r then Some(op) else GetOp(paths, r')
  {
    var inner := if r.uri in paths then paths[r.uri] else map[];
    paths[r.uri := inner[r.verb := op]]
  }

  /** Storing an operation adds its uri to the paths object and leaves every other
      uri's entry as it was. */
  lemma PutOpKeys<P>(paths: Paths<P>, r: Route, op: Operation<P>)
    ensures PutOp(paths, r, op).Keys == paths.Keys + {r.uri}
    ensures forall u :: u in paths && u != r.uri ==> PutOp(paths, r, op)[u] == paths[u]
  {
  }

  // ---------------------------------------------------------------- per-tag pieces

  /** The `params` entry a `param` tag pushes; the tag's type is read by `parseSchema`,
      which fails on a tag without one. */
  function ParamOf(t: Tag): (r: Result<Parameter>)
    ensures r.Err? <==> t.typ.None?
    ensures r.Ok? ==>
              && r.value.name == ParseField(t.name).name
              && r.value.location == ParseField(t.name).parameterType
              && r.value.required == ParseField(t.name).required
              && r.value.description == t.description
              && r.value.typ == ParseType(t.typ)
              && Ok(r.value.schema) == ParseSchema(t.typ)
  {
    var field := ParseField(t.name);
    var schema :- ParseSchema(t.typ);
    Ok(Parameter(field.name, field.parameterType, t.description, field.required, ParseType(t.typ), schema))
  }

  /** The `{name, description}` entry a route pushes onto the fragment's tags. */
  function GroupEntry(tags: seq<Tag>): TagGroup
  {
    var group := ParseTag(tags);
    TagGroup(group[0], Seg(group, 1))
  }

  /** The entry names the block's first `group` tag's text before its first `-` and
      describes it with the text up to the second `-`, which is undefined when there is
      no `-`; a block without a group tag gets `default` with an empty description. */
  lemma GroupEntryOf(tags: seq<Tag>)
    ensures (forall i :: 0 <= i < |tags| ==> tags[i].title != "group") ==> GroupEntry(tags) == TagGroup("default", Some(""))
    ensures forall i :: 0 <= i < |tags| && tags[i].title == "group" && (forall j :: 0 <= j < i ==> tags[j].title != "group")
              ==> var parts := Split(tags[i].description, '-');
                  GroupEntry(tags) == TagGroup(parts[0], if |parts| > 1 then Some(parts[1]) else None)
  {
  }

  /** The `{}` a route creates when its slot is empty. */
  const EmptyOperation: Operation<ParamList> := Operation("", [], NewArray, None, None, None, None, None)

  /** The route-dependent tags: they write one field of the current operation. */
  function Annotate(op: Operation<ParamList>, t: Tag): Operation<ParamList>
  {
    if t.title == "operationId" then op.(operationId := Some(t.description))
    else if t.title == "summary" then op.(summary := Some(t.description))
    else if t.title == "produces" then op.(produces := Some(ParseProduces(t.description)))
    else if t.title == "consumes" then op.(consumes := Some(ParseConsumes(t.description)))
    else op
  }

  /** Each route-dependent tag writes the one field its title names, from its
      description; any other tag, and every other field, is left alone. */
  lemma AnnotateFields(op: Operation<ParamList>, t: Tag)
    ensures Annotate(op, t).description == op.description && Annotate(op, t).tags == op.tags
    ensures Annotate(op, t).parameters == op.parameters && Annotate(op, t).responses == op.responses
    ensures Annotate(op, t).operationId == if t.title == "operationId" then Some(t.description) else op.operationId
    ensures Annotate(op, t).summary == if t.title == "summary" then Some(t.description) else op.summary
    ensures Annotate(op, t).produces == if t.title == "produces" then Some(ParseProduces(t.description)) else op.produces
    ensures Annotate(op, t).consumes == if t.title == "consumes" then Some(ParseConsumes(t.description)) else op.consumes
  {
  }

  /** What every iteration does to the current operation once a route is set: its
      `parameters` becomes the shared array and its `responses` the whole block's. */
  function Attach(b: Block, op: Operation<ParamList>): Operation<ParamList>
  {
    op.(parameters := SharedParams, responses := Some(ParseReturn(b.tags)))
  }

  /** `Attach` sets the shared array and the block's responses and keeps every other field. */
  lemma AttachFields(b: Block, op: Operation<ParamList>)
    ensures Attach(b, op).parameters == SharedParams && Attach(b, op).responses == Some(ParseReturn(b.tags))
    ensures Attach(b, op).description == op.description && Attach(b, op).tags == op.tags
    ensures Attach(b, op).operationId == op.operationId && Attach(b, op).summary == op.summary
    ensures Attach(b, op).produces == op.produces && Attach(b, op).consumes == op.consumes
  {
  }

  // ---------------------------------------------------------------- the fold

  datatype State = State(route: Option<Route>, params: seq<Parameter>, paths: Paths<ParamList>, tags: seq<TagGroup>)

  const Start: State := State(None, [], map[], [])

  /** Once a route is set, its operation exists. */
  predicate CurrentExists(st: State)
  {
    st.route.Some? ==> GetOp(st.paths, st.route.value).Some?
  }

  /** A `route` tag: decode it, (re)initialise its operation keeping any fields an earlier
      route to the same slot left, make it current, and push the block's group entry. */
  function OpenRoute(b: Block, st: State, t: Tag): (st': State)
    ensures st'.route == Some(ParseRoute(t.description)) && CurrentExists(st')
    ensures st'.params == st.params && st'.tags == st.tags + [GroupEntry(b.tags)]
    ensures forall r :: r != ParseRoute(t.description) ==> GetOp(st'.paths, r) == GetOp(st.paths, r)
    ensures
      var op := GetOp(st'.paths, ParseRoute(t.description)).value;
      var prev := GetOp(st.paths, ParseRoute(t.description));
      && op.parameters == NewArray
      && op.description == ParseDescription(b)
      && op.tags == [ParseTag(b.tags)[0]]
      && (prev.Some? ==> op.operationId == prev.value.operationId && op.summary == prev.value.summary
                         && op.produces == prev.value.produces && op.consumes == prev.value.consumes)
      && (prev.None? ==> op.operationId.None? && op.summary.None? && op.produces.None? && op.consumes.None?)
  {
    var route := ParseRoute(t.description);
    var group := ParseTag(b.tags);
    var prev := GetOp(st.paths, route);
    var base := if prev.Some? then prev.value else EmptyOperation;
    var op := base.(parameters := NewArray, description := ParseDescription(b), tags := [group[0]]);
    State(Some(route), st.params, PutOp(st.paths, route, op), st.tags + [GroupEntry(b.tags)])
  }

  /** A `param` tag: push its entry onto the shared array. */
  function PushParam(st: State, t: Tag): (r: Result<State>)
    ensures r.Err? <==> t.typ.None?
    ensures r.Ok? ==> r.value == st.(params := st.params + [ParamOf(t).value])
  {
    var p :- ParamOf(t);
    Ok(st.(params := st.params + [p]))
  }

  /** One iteration of the tag loop. After the title-specific work, whenever a route is
      set, its operation is given the shared `params` array and the block's responses. */
  function Step(b: Block, st: State, t: Tag): (r: Result<State>)
    requires CurrentExists(st)
    ensures r.Err? <==> t.title == "param" && t.typ.None?
    ensures r.Ok? ==> CurrentExists(r.value)
  {
    var st1 := if t.title == "route" then OpenRoute(b, st, t) else st;
    var st2 :- if t.title == "param" then PushParam(st1, t) else Ok(st1);
    match st2.route
    case None => Ok(st2)
    case Some(route) =>
      Ok(st2.(paths := PutOp(st2.paths, route, Attach(b, Annotate(GetOp(st2.paths, route).value, t)))))
  }

  /** The state after the loop has visited `b.tags[..n]`. It fails exactly when one of
      those tags is a `param` without a type. */
  function Run(b: Block, n: nat): (r: Result<State>)
    requires n <= |b.tags|
    ensures r.Err? <==> exists i :: 0 <= i < n && b.tags[i].title == "param" && b.tags[i].typ.None?
    ensures r.Ok? ==> CurrentExists(r.value)
  {
    if n == 0 then Ok(Start)
    else
      var st :- Run(b, n - 1);
      Step(b, st, b.tags[n - 1])
  }

  // ---------------------------------------------------------------- the fragment

  /** An operation as the finished fragment shows it: the shared array is read at its
      final content. */
  function ResolveOp(op: Operation<ParamList>, params: seq<Parameter>): Operation<seq<Parameter>>
  {
    Operation(op.description, op.tags, if op.parameters == SharedParams then params else [],
              op.operationId, op.summary, op.produces, op.consumes, op.responses)
  }

  function ResolvePaths(paths: Paths<ParamList>, params: seq<Parameter>): (res: Paths<seq<Parameter>>)
    ensures res.Keys == paths.Keys
    ensures forall u :: u in paths ==> res[u].Keys == paths[u].Keys
    ensures forall r :: GetOp(res, r).Some? <==> GetOp(paths, r).Some?
    ensures forall r :: GetOp(paths, r).Some? ==> GetOp(res, r).value == ResolveOp(GetOp(paths, r).value, params)
  {
    map u | u in paths :: map m | m in paths[u] :: ResolveOp(paths[u][m], params)
  }

  /** A block whose first tag is a `typedef`. */
  predicate IsTypedefBlock(b: Block)
  {
    |b.tags| > 0 && b.tags[0].title == "typedef"
  }

  /** `fileFormat`: a typedef block yields one definition and nothing else; any other
      block yields its paths and tag groups and no definition. */
  function FileFormat(b: Block): (r: Result<Fragment>)
    ensures IsTypedefBlock(b) && r.Ok? ==>
              && r.value.paths == map[]
              && r.value.tags == []
              && r.value.definitions.Keys == {b.tags[0].name}
              && Ok(r.value.definitions[b.tags[0].name]) == TypedefUpTo(b.tags, |b.tags|)
    ensures IsTypedefBlock(b) ==>
              (r.Err? <==> exists i :: 1 <= i < |b.tags| && IsPropertyTag(b.tags[i]) && b.tags[i].typ.None?)
    ensures !IsTypedefBlock(b) ==>
              (r.Err? <==> exists i :: 0 <= i < |b.tags| && b.tags[i].title == "param" && b.tags[i].typ.None?)
    ensures !IsTypedefBlock(b) && r.Ok? ==> r.value.definitions == map[]
  {
    if IsTypedefBlock(b) then
      var td :- ParseTypedef(b.tags);
      Ok(Fragment(map[], [], map[td.typeName := td.details]))
    else
      var st :- Run(b, |b.tags|);
      Ok(Fragment(ResolvePaths(st.paths, st.params), st.tags, map[]))
  }

  // ---------------------------------------------------------------- the block filter

  /** `filterJsDocComments`: keeps exactly the blocks that carry tags. */
  function FilterJsDocComments(blocks: seq<Block>): (kept: seq<Block>)
    ensures forall b :: b in kept <==> b in blocks && |b.tags| > 0
    ensures |kept| <= |blocks|
  {
    if |blocks| == 0 then []
    else (if |blocks[0].tags| > 0 then [blocks[0]] else []) + FilterJsDocComments(blocks[1..])
  }

  /** The filter keeps relative order: filtering a concatenation concatenates the
      filtered parts. */
  lemma {:induction false} FilterAppend(a: seq<Block>, c: seq<Block>)
    ensures FilterJsDocComments(a + c) == FilterJsDocComments(a) + FilterJsDocComments(c)
    decreases |a|
  {
    if |a| == 0 {
      assert a + c == c;
    } else {
      assert (a + c)[0] == a[0];
      assert (a + c)[1..] == a[1..] + c;
      FilterAppend(a[1..], c);
    }
  }

  /** Filtering twice keeps what filtering once kept. */
  lemma {:induction false} FilterIdempotent(blocks: seq<Block>)
    ensures FilterJsDocComments(FilterJsDocComments(blocks)) == FilterJsDocComments(blocks)
    decreases |blocks|
  {
    if |blocks| > 0 {
      var head := if |blocks[0].tags| > 0 then [blocks[0]] else [];
      FilterIdempotent(blocks[1..]);
      FilterAppend(head, FilterJsDocComments(blocks[1..]));
      if |head| == 1 {
        assert FilterJsDocComments(head) == head by {
          assert head[1..] == [];
        }
      }
    }
  }
}
