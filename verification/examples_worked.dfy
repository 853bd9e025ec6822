/** Worked instances of the decoders and of `fileFormat` on small blocks. */
module WorkedExamples {
  import opened Wrappers
  import opened JsText
  import opened Annotations
  import opened Decoders
  import opened Assembler
  import opened AssemblerProofs

  /** `GET /pets` is the `get` operation of `/pets`; an empty line is `get` of `""`. */
  lemma RouteExamples()
    ensures ParseRoute("GET /pets") == Route("get", "/pets")
    ensures ParseRoute("") == Route("get", "")
  {
    assert "GET /pets" == Join(["GET", "/pets"], ' ');
    ParseRouteTokens(["GET", "/pets"]);
    assert Lower("GET") == "get";
  }

  /** The third segment decides `required`. */
  lemma RequiredFieldExample()
    ensures ParseField("id.path.required") == Field("id", "path", true)
  {
    assert "id.path.required" == Join(["id", "path", "required"], '.');
    ParseFieldSegments(["id", "path", "required"]);
  }

  /** A missing third segment means not required. */
  lemma OptionalFieldExample()
    ensures ParseField("id.path") == Field("id", "path", false)
  {
    assert "id.path" == Join(["id", "path"], '.');
    ParseFieldSegments(["id", "path"]);
  }

  /** A bare name is an optional parameter of the default location `get`. */
  lemma BareFieldExample()
    ensures ParseField("id") == Field("id", "get", false)
  {
    ParseFieldName("id");
  }

  /** `Pet.model` names the model `Pet`. */
  lemma ModelTypeExample()
    ensures ParseType(Some(TypeToken(Some("Pet.model")))) == Some("Pet")
  {
    PetModelName();
  }

  /** `Pet.model` refers to the definition of `Pet`. */
  lemma ModelSchemaExample()
    ensures ParseSchema(Some(TypeToken(Some("Pet.model")))) == Ok(Some(SchemaRef("#/definitions/Pet")))
  {
    assert Join(["Pet", "model"], '.') == "Pet.model";
    ParseTypeSegments(["Pet", "model"]);
    assert DefinitionsPrefix + "Pet" == "#/definitions/Pet";
  }

  lemma PetModelName()
    ensures ModelName("Pet.model") == Some("Pet")
  {
    assert Join(["Pet", "model"], '.') == "Pet.model";
    SplitJoin(["Pet", "model"], '.');
  }

  /** `integer` is a plain type with no reference. */
  lemma PlainTypeExample()
    ensures ParseType(Some(TypeToken(Some("integer")))) == Some("integer")
    ensures ParseSchema(Some(TypeToken(Some("integer")))) == Ok(None)
  {
    SplitWithoutSep("integer", '.');
    assert ModelName("integer") == None;
  }

  /** The block of `BlockExample`: an `operationId` before its route, then a param. */
  function ListPets(): Block
  {
    Block(Some("List pets"), [
      Tag("operationId", "", None, "listPets"),
      Tag("route", "", None, "GET /pets"),
      Tag("param", "limit.query", Some(TypeToken(Some("integer"))), "how many")])
  }

  /** Without `group` or `return` tags, the block has the default group and no responses. */
  lemma ListPetsGroupAndReturns()
    ensures ParseTag(ListPets().tags) == ["default", ""]
    ensures ParseReturn(ListPets().tags) == map[]
  {
    var tags := ListPets().tags;
    assert forall i :: 0 <= i < |tags| ==> tags[i].title != "group" && !IsReturnTag(tags[i]);
  }

  lemma ListPetsParam()
    ensures ParamOf(ListPets().tags[2]) == Ok(Parameter("limit", "query", "how many", false, Some("integer"), None))
  {
    assert ParseField("limit.query") == Field("limit", "query", false) by {
      assert "limit.query" == Join(["limit", "query"], '.');
      ParseFieldSegments(["limit", "query"]);
    }
    PlainTypeExample();
  }

  /** Writing the one slot of a one-operation paths object replaces its operation. */
  lemma PutOpReplaces<P>(uri: string, verb: string, op: Operation<P>, op': Operation<P>)
    ensures PutOp(map[uri := map[verb := op]], Route(verb, uri), op') == map[uri := map[verb := op']]
  {
    assert map[verb := op][verb := op'] == map[verb := op'];
  }

  /** The operation `GET /pets` holds while `ListPets` is folded. */
  function ListPetsOp(): Operation<ParamList>
  {
    Operation("List pets", ["default"], SharedParams, None, None, None, None, Some(map[]))
  }

  /** The `operationId` tag comes before any route, so the state stays the start state. */
  lemma ListPetsRun1()
    ensures Run(ListPets(), 1) == Ok(Start)
  {
    assert Run(ListPets(), 0) == Ok(Start);
  }

  /** The route creates the operation and pushes the default group. */
  lemma ListPetsOpen()
    ensures OpenRoute(ListPets(), Start, ListPets().tags[1])
         == State(Some(Route("get", "/pets")), [],
                  map["/pets" := map["get" := EmptyOperation.(parameters := NewArray, description := "List pets", tags := ["default"])]],
                  [TagGroup("default", Some(""))])
  {
    ListPetsGroupAndReturns();
    RouteExamples();
  }

  /** After the route, its operation gets the shared array and the (empty) responses. */
  lemma ListPetsRun2()
    ensures Run(ListPets(), 2)
         == Ok(State(Some(Route("get", "/pets")), [], map["/pets" := map["get" := ListPetsOp()]], [TagGroup("default", Some(""))]))
  {
    var b := ListPets();
    ListPetsRun1();
    ListPetsOpen();
    ListPetsGroupAndReturns();
    var op := EmptyOperation.(parameters := NewArray, description := "List pets", tags := ["default"]);
    assert Annotate(op, b.tags[1]) == op;
    assert Attach(b, op) == ListPetsOp();
    PutOpReplaces("/pets", "get", op, ListPetsOp());
  }

  lemma ListPetsPush(st: State)
    requires st.params == []
    ensures PushParam(st, ListPets().tags[2])
         == Ok(st.(params := [Parameter("limit", "query", "how many", false, Some("integer"), None)]))
  {
    var t := ListPets().tags[2];
    var p := Parameter("limit", "query", "how many", false, Some("integer"), None);
    ListPetsParam();
    PushParamOf(st, t, p);
    assert st.params + [p] == [p];
    assert PushParam(st, t) == Ok(st.(params := [p]));
  }

  lemma PushParamOf(st: State, t: Tag, p: Parameter)
    requires ParamOf(t) == Ok(p)
    ensures PushParam(st, t) == Ok(st.(params := st.params + [p]))
  {
  }

  /** The param is pushed onto the shared array. */
  lemma ListPetsRun3()
    ensures Run(ListPets(), 3)
         == Ok(State(Some(Route("get", "/pets")), [Parameter("limit", "query", "how many", false, Some("integer"), None)],
                     map["/pets" := map["get" := ListPetsOp()]], [TagGroup("default", Some(""))]))
  {
    var b := ListPets();
    var p := Parameter("limit", "query", "how many", false, Some("integer"), None);
    var paths := map["/pets" := map["get" := ListPetsOp()]];
    var st := State(Some(Route("get", "/pets")), [], paths, [TagGroup("default", Some(""))]);
    ListPetsRun2();
    ListPetsGroupAndReturns();
    ListPetsParam();
    ListPetsPush(st);
    assert Annotate(ListPetsOp(), b.tags[2]) == ListPetsOp();
    assert Attach(b, ListPetsOp()) == ListPetsOp();
    PutOpReplaces("/pets", "get", ListPetsOp(), ListPetsOp());
    assert Step(b, st, b.tags[2]) == Ok(st.(params := [p]));
  }

  /** Reading a one-operation paths object. */
  lemma ResolveOne(uri: string, verb: string, op: Operation<ParamList>, params: seq<Parameter>)
    ensures ResolvePaths(map[uri := map[verb := op]], params) == map[uri := map[verb := ResolveOp(op, params)]]
  {
    var res := ResolvePaths(map[uri := map[verb := op]], params);
    assert res.Keys == {uri};
    assert res[uri].Keys == {verb};
    assert res[uri] == map[verb := ResolveOp(op, params)];
  }

  /** An `operationId` before the route is lost; a param after the route is listed. */
  lemma BlockExample()
    ensures
      var op := Operation("List pets", ["default"],
        [Parameter("limit", "query", "how many", false, Some("integer"), None)],
        None, None, None, None, Some(map[]));
      FileFormat(ListPets()) == Ok(Fragment(map["/pets" := map["get" := op]], [TagGroup("default", Some(""))], map[]))
  {
    ListPetsRun3();
    ResolveOne("/pets", "get", ListPetsOp(), [Parameter("limit", "query", "how many", false, Some("integer"), None)]);
  }

  /** Two routes, each followed by its own `operationId`. */
  function TwoRoutes(): Block
  {
    Block(None, [
      Tag("route", "", None, "GET /a"),
      Tag("operationId", "", None, "X"),
      Tag("route", "", None, "GET /b"),
      Tag("operationId", "", None, "Y")])
  }

  lemma RouteA()
    ensures ParseRoute("GET /a") == Route("get", "/a")
  {
    assert "GET /a" == Join(["GET", "/a"], ' ');
    ParseRouteTokens(["GET", "/a"]);
    assert Lower("GET") == "get";
  }

  lemma RouteB()
    ensures ParseRoute("GET /b") == Route("get", "/b")
  {
    assert "GET /b" == Join(["GET", "/b"], ' ');
    ParseRouteTokens(["GET", "/b"]);
    assert Lower("GET") == "get";
  }

  /** `/a` is current when `X` is read and `/b` when `Y` is read. */
  lemma TwoRoutesCurrent(b: Block)
    requires b == TwoRoutes()
    ensures LastRoute(b.tags, 1) == Some(Route("get", "/a"))
    ensures LastRoute(b.tags, 3) == Some(Route("get", "/b"))
  {
    RouteA();
    RouteB();
  }

  /** The block has no param tag, so `fileFormat` does not throw on it. */
  lemma TwoRoutesOk(b: Block)
    requires b == TwoRoutes()
    ensures FileFormat(b).Ok?
  {
    assert !IsTypedefBlock(b);
    assert forall i :: 0 <= i < |b.tags| ==> b.tags[i].title != "param";
  }

  /** `X` is read while `/a` is current, and the later `operationId` is read while `/b` is. */
  lemma TwoRoutesStoresX(b: Block)
    requires b == TwoRoutes()
    requires FileFormat(b).Ok?
    ensures GetOp(FileFormat(b).value.paths, Route("get", "/a")).Some?
    ensures GetOp(FileFormat(b).value.paths, Route("get", "/a")).value.operationId == Some("X")
  {
    TwoRoutesCurrent(b);
    TwoRoutesOnlyLaterX(b);
    FileFormatStoresField(b, 1);
  }

  /** The only later `operationId` is read while another route is current. */
  lemma TwoRoutesOnlyLaterX(b: Block)
    requires b == TwoRoutes()
    ensures NotOverwritten(b.tags, 1, |b.tags|)
  {
    TwoRoutesCurrent(b);
    forall j | 1 < j < |b.tags| && b.tags[j].title == b.tags[1].title
      ensures LastRoute(b.tags, j) != LastRoute(b.tags, 1)
    {
      assert j == 3;
    }
  }

  /** `Y` is the last `operationId`, read while `/b` is current. */
  lemma TwoRoutesStoresY(b: Block)
    requires b == TwoRoutes()
    requires FileFormat(b).Ok?
    ensures GetOp(FileFormat(b).value.paths, Route("get", "/b")).Some?
    ensures GetOp(FileFormat(b).value.paths, Route("get", "/b")).value.operationId == Some("Y")
  {
    TwoRoutesCurrent(b);
    FileFormatStoresField(b, 3);
  }

  /** Each `operationId` lands on the route read just before it, not on the other one. */
  lemma TwoRoutesExample(b: Block)
    requires b == TwoRoutes()
    ensures FileFormat(b).Ok?
    ensures GetOp(FileFormat(b).value.paths, Route("get", "/a")).Some?
    ensures GetOp(FileFormat(b).value.paths, Route("get", "/a")).value.operationId == Some("X")
    ensures GetOp(FileFormat(b).value.paths, Route("get", "/b")).Some?
    ensures GetOp(FileFormat(b).value.paths, Route("get", "/b")).value.operationId == Some("Y")
  {
    TwoRoutesOk(b);
    TwoRoutesStoresX(b);
    TwoRoutesStoresY(b);
  }
}
