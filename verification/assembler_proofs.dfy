/** What `fileFormat`'s fold guarantees about the fragment, stated against reference
    definitions of the block (its routes, its params, its group) and proved by induction
    on the number of tags visited. */
module AssemblerProofs {
  import opened Wrappers
  import opened JsText
  import opened Annotations
  import opened Decoders
  import opened Assembler

  // ---------------------------------------------------------------- reference definitions

  /** The number of `route` tags among `tags[..n]`. */
  function RouteCount(tags: seq<Tag>, n: nat): nat
    requires n <= |tags|
  {
    if n == 0 then 0 else RouteCount(tags, n - 1) + (if tags[n - 1].title == "route" then 1 else 0)
  }

  /** The route of the last `route` tag among `tags[..n]`. */
  function LastRoute(tags: seq<Tag>, n: nat): (r: Option<Route>)
    requires n <= |tags|
    ensures r.Some? <==> RouteCount(tags, n) > 0
  {
    if n == 0 then None
    else if tags[n - 1].title == "route" then Some(ParseRoute(tags[n - 1].description))
    else LastRoute(tags, n - 1)
  }

  /** Some `route` tag among `tags[..n]` decodes to `rt`. */
  predicate RouteSeen(tags: seq<Tag>, n: nat, rt: Route)
    requires n <= |tags|
  {
    exists i :: 0 <= i < n && tags[i].title == "route" && ParseRoute(tags[i].description) == rt
  }

  /** The entries of the `param` tags among `tags[..n]`, in order. */
  function ParamsUpTo(tags: seq<Tag>, n: nat): (r: Result<seq<Parameter>>)
    requires n <= |tags|
    ensures r.Err? <==> exists i :: 0 <= i < n && tags[i].title == "param" && tags[i].typ.None?
  {
    if n == 0 then Ok([])
    else
      var ps :- ParamsUpTo(tags, n - 1);
      if tags[n - 1].title == "param" then
        var p :- ParamOf(tags[n - 1]);
        Ok(ps + [p])
      else Ok(ps)
  }

  /** Every route-dependent field the operation of slot `rt` carries was written by a
      tag of `tags[..n]` read while `rt` was the current route. */
  predicate Provenance<P>(tags: seq<Tag>, n: nat, rt: Route, op: Operation<P>)
    requires n <= |tags|
  {
    && (op.operationId.Some? ==>
          exists i :: 0 <= i < n && LastRoute(tags, i) == Some(rt) && tags[i].title == "operationId"
                      && op.operationId.value == tags[i].description)
    && (op.summary.Some? ==>
          exists i :: 0 <= i < n && LastRoute(tags, i) == Some(rt) && tags[i].title == "summary"
                      && op.summary.value == tags[i].description)
    && (op.produces.Some? ==>
          exists i :: 0 <= i < n && LastRoute(tags, i) == Some(rt) && tags[i].title == "produces"
                      && op.produces.value == ParseProduces(tags[i].description))
    && (op.consumes.Some? ==>
          exists i :: 0 <= i < n && LastRoute(tags, i) == Some(rt) && tags[i].title == "consumes"
                      && op.consumes.value == ParseConsumes(tags[i].description))
  }

  /** What the operation of slot `rt` looks like after `n` tags. */
  predicate OpShape(b: Block, n: nat, rt: Route, op: Operation<ParamList>)
    requires n <= |b.tags|
  {
    && op.parameters == SharedParams
    && op.responses == Some(ParseReturn(b.tags))
    && op.description == ParseDescription(b)
    && op.tags == [ParseTag(b.tags)[0]]
    && Provenance(b.tags, n, rt, op)
  }

  // ---------------------------------------------------------------- params

  /** The state's `params` is the block's param entries so far, in order, whether or not
      a route has been seen. */
  lemma {:induction false} RunParams(b: Block, n: nat)
    requires n <= |b.tags|
    ensures Run(b, n).Ok? <==> ParamsUpTo(b.tags, n).Ok?
    ensures Run(b, n).Ok? ==> Run(b, n).value.params == ParamsUpTo(b.tags, n).value
  {
    if n > 0 {
      RunParams(b, n - 1);
    }
  }

  // ---------------------------------------------------------------- route and tag groups

  /** The current route is the last route tag seen, and one group entry has been pushed
      per route tag. */
  lemma RunRouteAndTags(b: Block, n: nat)
    requires n <= |b.tags|
    ensures Run(b, n).Ok? ==> Run(b, n).value.route == LastRoute(b.tags, n)
    ensures Run(b, n).Ok? ==> |Run(b, n).value.tags| == RouteCount(b.tags, n)
    ensures Run(b, n).Ok? ==> forall k :: 0 <= k < |Run(b, n).value.tags| ==> Run(b, n).value.tags[k] == GroupEntry(b.tags)
  {
    RunRoute(b, n);
    RunTagGroups(b, n);
  }

  lemma {:induction false} RunRoute(b: Block, n: nat)
    requires n <= |b.tags|
    ensures Run(b, n).Ok? ==> Run(b, n).value.route == LastRoute(b.tags, n)
  {
    if n > 0 && Run(b, n).Ok? {
      assert Run(b, n - 1).Ok?;
      RunRoute(b, n - 1);
      StepRouteAndTags(b, Run(b, n - 1).value, b.tags[n - 1]);
    }
  }

  lemma {:induction false} RunTagGroups(b: Block, n: nat)
    requires n <= |b.tags|
    ensures Run(b, n).Ok? ==> |Run(b, n).value.tags| == RouteCount(b.tags, n)
    ensures Run(b, n).Ok? ==> forall k :: 0 <= k < |Run(b, n).value.tags| ==> Run(b, n).value.tags[k] == GroupEntry(b.tags)
  {
    if n > 0 && Run(b, n).Ok? {
      assert Run(b, n - 1).Ok?;
      RunTagGroups(b, n - 1);
      StepRouteAndTags(b, Run(b, n - 1).value, b.tags[n - 1]);
    }
  }

  /** A `route` tag makes its route current and pushes one group entry; no other tag
      touches either. */
  lemma StepRouteAndTags(b: Block, st: State, t: Tag)
    requires CurrentExists(st) && Step(b, st, t).Ok?
    ensures Step(b, st, t).value.route == if t.title == "route" then Some(ParseRoute(t.description)) else st.route
    ensures Step(b, st, t).value.tags == if t.title == "route" then st.tags + [GroupEntry(b.tags)] else st.tags
  {
  }

  // ---------------------------------------------------------------- operations

  lemma {:induction false} ProvenanceGrows<P>(tags: seq<Tag>, n: nat, rt: Route, op: Operation<P>)
    requires n < |tags|
    requires Provenance(tags, n, rt, op)
    ensures Provenance(tags, n + 1, rt, op)
  {
  }

  /** The invariant about operations, after `n` tags. */
  ghost predicate OpsInvariant(b: Block, n: nat, st: State)
    requires n <= |b.tags|
  {
    && (forall rt :: GetOp(st.paths, rt).Some? <==> RouteSeen(b.tags, n, rt))
    && (forall rt :: GetOp(st.paths, rt).Some? ==> OpShape(b, n, rt, GetOp(st.paths, rt).value))
  }

  /** The routes seen before `route` tag `n - 1` and its own are all those seen before `n`. */
  lemma RouteSeenRoute(tags: seq<Tag>, n: nat, rt: Route)
    requires 1 <= n <= |tags| && tags[n - 1].title == "route"
    ensures RouteSeen(tags, n, rt) <==> RouteSeen(tags, n - 1, rt) || rt == ParseRoute(tags[n - 1].description)
  {
    if rt == ParseRoute(tags[n - 1].description) {
      assert tags[n - 1].title == "route" && ParseRoute(tags[n - 1].description) == rt;
    } else if RouteSeen(tags, n, rt) {
      var i :| 0 <= i < n && tags[i].title == "route" && ParseRoute(tags[i].description) == rt;
      assert i < n - 1;
    }
  }

  /** A `route` tag keeps the invariant, slot by slot. */
  lemma RoutePathsAt(b: Block, n: nat, st: State, rt: Route)
    requires 1 <= n <= |b.tags| && b.tags[n - 1].title == "route"
    requires CurrentExists(st) && OpsInvariant(b, n - 1, st)
    ensures GetOp(RoutePaths(b, st, b.tags[n - 1]), rt).Some? <==> RouteSeen(b.tags, n, rt)
    ensures GetOp(RoutePaths(b, st, b.tags[n - 1]), rt).Some? ==>
              OpShape(b, n, rt, GetOp(RoutePaths(b, st, b.tags[n - 1]), rt).value)
  {
    var t := b.tags[n - 1];
    var route := ParseRoute(t.description);
    var st1 := OpenRoute(b, st, t);
    RouteSeenRoute(b.tags, n, rt);
    if rt == route {
      var prev := GetOp(st.paths, route);
      var base := if prev.Some? then prev.value else EmptyOperation;
      var op := base.(parameters := NewArray, description := ParseDescription(b), tags := [ParseTag(b.tags)[0]]);
      assert GetOp(st1.paths, route) == Some(op);
      if prev.Some? {
        assert OpShape(b, n - 1, route, prev.value);
        ProvenanceGrows(b.tags, n - 1, route, prev.value);
      }
      AttachShape(b, n, route, op);
    } else {
      assert GetOp(RoutePaths(b, st, t), rt) == GetOp(st.paths, rt);
      if GetOp(st.paths, rt).Some? {
        assert OpShape(b, n - 1, rt, GetOp(st.paths, rt).value);
        ProvenanceGrows(b.tags, n - 1, rt, GetOp(st.paths, rt).value);
      }
    }
  }

  /** A `route` tag keeps the invariant. */
  lemma StepOpsRoute(b: Block, n: nat, st: State, st': State)
    requires 1 <= n <= |b.tags| && b.tags[n - 1].title == "route"
    requires CurrentExists(st) && OpsInvariant(b, n - 1, st)
    requires st'.paths == RoutePaths(b, st, b.tags[n - 1])
    ensures OpsInvariant(b, n, st')
  {
    forall rt
      ensures GetOp(st'.paths, rt).Some? <==> RouteSeen(b.tags, n, rt)
      ensures GetOp(st'.paths, rt).Some? ==> OpShape(b, n, rt, GetOp(st'.paths, rt).value)
    {
      RoutePathsAt(b, n, st, rt);
    }
  }

  /** A route-dependent tag read while a route is set carries its provenance with it. */
  lemma AnnotateProvenance(tags: seq<Tag>, n: nat, rt: Route, op: Operation<ParamList>)
    requires 1 <= n <= |tags| && LastRoute(tags, n - 1) == Some(rt)
    requires Provenance(tags, n - 1, rt, op)
    ensures Provenance(tags, n, rt, Annotate(op, tags[n - 1]))
  {
    var t := tags[n - 1];
    ProvenanceGrows(tags, n - 1, rt, op);
    if t.title == "operationId" {
      assert Annotate(op, t) == op.(operationId := Some(t.description));
    } else if t.title == "summary" {
      assert Annotate(op, t) == op.(summary := Some(t.description));
    } else if t.title == "produces" {
      assert Annotate(op, t) == op.(produces := Some(ParseProduces(t.description)));
    } else if t.title == "consumes" {
      assert Annotate(op, t) == op.(consumes := Some(ParseConsumes(t.description)));
    } else {
      assert Annotate(op, t) == op;
    }
  }

  /** The paths after a tag other than `route`: at most the current operation changes,
      gaining the tag's field, the shared params array and the responses. */
  function OtherPaths(b: Block, st: State, t: Tag): Paths<ParamList>
    requires CurrentExists(st)
  {
    if st.route.None? then st.paths
    else
      var cur := GetOp(st.paths, st.route.value).value;
      PutOp(st.paths, st.route.value, Attach(b, Annotate(cur, t)))
  }

  lemma StepOtherPaths(b: Block, st: State, t: Tag)
    requires t.title != "route" && CurrentExists(st) && Step(b, st, t).Ok?
    ensures Step(b, st, t).value.paths == OtherPaths(b, st, t)
  {
  }

  /** The route tags seen before tag `n - 1` that is not a route are all those seen
      before `n`. */
  lemma RouteSeenOther(tags: seq<Tag>, n: nat, rt: Route)
    requires 1 <= n <= |tags| && tags[n - 1].title != "route"
    ensures RouteSeen(tags, n, rt) <==> RouteSeen(tags, n - 1, rt)
  {
    if RouteSeen(tags, n, rt) {
      var i :| 0 <= i < n && tags[i].title == "route" && ParseRoute(tags[i].description) == rt;
      assert i < n - 1;
    }
  }

  /** Any other tag keeps the invariant at the current slot. */
  lemma StepOpsOtherCurrent(b: Block, n: nat, st: State)
    requires 1 <= n <= |b.tags| && b.tags[n - 1].title != "route"
    requires CurrentExists(st) && st.route.Some?
    requires RouteSeen(b.tags, n - 1, st.route.value)
    requires OpShape(b, n - 1, st.route.value, GetOp(st.paths, st.route.value).value)
    requires st.route == LastRoute(b.tags, n - 1)
    ensures GetOp(OtherPaths(b, st, b.tags[n - 1]), st.route.value).Some?
    ensures RouteSeen(b.tags, n, st.route.value)
    ensures OpShape(b, n, st.route.value, GetOp(OtherPaths(b, st, b.tags[n - 1]), st.route.value).value)
  {
    var t, route := b.tags[n - 1], st.route.value;
    RouteSeenOther(b.tags, n, route);
    var cur := GetOp(st.paths, route).value;
    assert cur.description == ParseDescription(b) && cur.tags == [ParseTag(b.tags)[0]];
    assert Provenance(b.tags, n - 1, route, cur);
    var op := Annotate(cur, t);
    AnnotateProvenance(b.tags, n, route, cur);
    AnnotateFields(cur, t);
    AttachShape(b, n, route, op);
    assert GetOp(OtherPaths(b, st, t), route) == Some(Attach(b, op));
  }

  /** `Attach` gives an operation with the block's description and group the shape the
      invariant asks for, keeping its route-dependent fields. */
  lemma AttachShape(b: Block, n: nat, rt: Route, op: Operation<ParamList>)
    requires n <= |b.tags|
    requires op.description == ParseDescription(b) && op.tags == [ParseTag(b.tags)[0]]
    requires Provenance(b.tags, n, rt, op)
    ensures OpShape(b, n, rt, Attach(b, op))
  {
    var op' := Attach(b, op);
    assert op'.operationId == op.operationId && op'.summary == op.summary;
    assert op'.produces == op.produces && op'.consumes == op.consumes;
  }

  /** Any other tag keeps the invariant, slot by slot. */
  lemma StepOpsOtherAt(b: Block, n: nat, st: State, rt: Route)
    requires 1 <= n <= |b.tags| && b.tags[n - 1].title != "route"
    requires CurrentExists(st) && OpsInvariant(b, n - 1, st)
    requires st.route == LastRoute(b.tags, n - 1)
    ensures GetOp(OtherPaths(b, st, b.tags[n - 1]), rt).Some? <==> RouteSeen(b.tags, n, rt)
    ensures GetOp(OtherPaths(b, st, b.tags[n - 1]), rt).Some? ==>
              OpShape(b, n, rt, GetOp(OtherPaths(b, st, b.tags[n - 1]), rt).value)
  {
    RouteSeenOther(b.tags, n, rt);
    assert GetOp(st.paths, rt).Some? <==> RouteSeen(b.tags, n - 1, rt);
    if st.route == Some(rt) {
      StepOpsOtherCurrent(b, n, st);
    } else {
      assert GetOp(OtherPaths(b, st, b.tags[n - 1]), rt) == GetOp(st.paths, rt);
      if GetOp(st.paths, rt).Some? {
        assert OpShape(b, n - 1, rt, GetOp(st.paths, rt).value);
        ProvenanceGrows(b.tags, n - 1, rt, GetOp(st.paths, rt).value);
      }
    }
  }

  /** Any other tag keeps the invariant. */
  lemma StepOpsOther(b: Block, n: nat, st: State, st': State)
    requires 1 <= n <= |b.tags| && b.tags[n - 1].title != "route"
    requires CurrentExists(st) && OpsInvariant(b, n - 1, st)
    requires st.route == LastRoute(b.tags, n - 1)
    requires st'.paths == OtherPaths(b, st, b.tags[n - 1])
    ensures OpsInvariant(b, n, st')
  {
    forall rt
      ensures GetOp(st'.paths, rt).Some? <==> RouteSeen(b.tags, n, rt)
      ensures GetOp(st'.paths, rt).Some? ==> OpShape(b, n, rt, GetOp(st'.paths, rt).value)
    {
      StepOpsOtherAt(b, n, st, rt);
    }
  }

  /** Every route tag seen has its operation, and only those exist; each operation holds
      the shared params array, the block's responses, the block's description and the
      block's group, and carries only route-dependent fields written after a route. */
  lemma {:induction false} RunOperations(b: Block, n: nat)
    requires n <= |b.tags|
    ensures Run(b, n).Ok? ==> OpsInvariant(b, n, Run(b, n).value)
  {
    if n > 0 && Run(b, n).Ok? {
      RunOperations(b, n - 1);
      RunOpsStep(b, n, Run(b, n - 1).value);
    }
  }

  /** Tag `n - 1` keeps the invariant about operations. */
  lemma RunOpsStep(b: Block, n: nat, st: State)
    requires 1 <= n <= |b.tags| && Run(b, n - 1) == Ok(st) && Run(b, n).Ok?
    requires OpsInvariant(b, n - 1, st)
    ensures OpsInvariant(b, n, Run(b, n).value)
  {
    RunRouteAndTags(b, n - 1);
    if b.tags[n - 1].title == "route" {
      StepRoutePaths(b, st, b.tags[n - 1]);
      StepOpsRoute(b, n, st, Run(b, n).value);
    } else {
      StepOtherPaths(b, st, b.tags[n - 1]);
      StepOpsOther(b, n, st, Run(b, n).value);
    }
  }

  // ---------------------------------------------------------------- the uris of the paths object

  /** Some `route` tag among `tags[..n]` names `uri`. */
  predicate UriSeen(tags: seq<Tag>, n: nat, uri: string)
    requires n <= |tags|
  {
    exists i :: 0 <= i < n && tags[i].title == "route" && ParseRoute(tags[i].description).uri == uri
  }

  /** The uris seen before tag `n - 1` that is not a route are all those seen before `n`. */
  lemma UriSeenOther(tags: seq<Tag>, n: nat, uri: string)
    requires 1 <= n <= |tags| && tags[n - 1].title != "route"
    ensures UriSeen(tags, n, uri) <==> UriSeen(tags, n - 1, uri)
  {
    if UriSeen(tags, n, uri) {
      var i :| 0 <= i < n && tags[i].title == "route" && ParseRoute(tags[i].description).uri == uri;
      assert i < n - 1;
      assert UriSeen(tags, n - 1, uri);
    }
    if UriSeen(tags, n - 1, uri) {
      var i :| 0 <= i < n - 1 && tags[i].title == "route" && ParseRoute(tags[i].description).uri == uri;
      assert UriSeen(tags, n, uri);
    }
  }

  /** A route tag adds its uri to those seen. */
  lemma UriSeenRoute(tags: seq<Tag>, n: nat, uri: string)
    requires 1 <= n <= |tags| && tags[n - 1].title == "route"
    ensures UriSeen(tags, n, uri) <==> UriSeen(tags, n - 1, uri) || uri == ParseRoute(tags[n - 1].description).uri
  {
    if UriSeen(tags, n, uri) && uri != ParseRoute(tags[n - 1].description).uri {
      var i :| 0 <= i < n && tags[i].title == "route" && ParseRoute(tags[i].description).uri == uri;
      assert i < n - 1;
    }
  }

  /** The paths object has a key for exactly the uris of the route tags seen. */
  lemma {:induction false} RunPathKeys(b: Block, n: nat)
    requires n <= |b.tags|
    ensures Run(b, n).Ok? ==> forall u :: u in Run(b, n).value.paths <==> UriSeen(b.tags, n, u)
  {
    if n > 0 && Run(b, n).Ok? {
      assert Run(b, n - 1).Ok?;
      RunPathKeys(b, n - 1);
      RunPathKeysStep(b, n, Run(b, n - 1).value);
    }
  }

  /** Tag `n - 1` keeps the paths object's keys equal to the uris seen. */
  lemma RunPathKeysStep(b: Block, n: nat, st: State)
    requires 1 <= n <= |b.tags| && Run(b, n - 1) == Ok(st) && Run(b, n).Ok?
    requires forall u :: u in st.paths <==> UriSeen(b.tags, n - 1, u)
    ensures forall u :: u in Run(b, n).value.paths <==> UriSeen(b.tags, n, u)
  {
    var t := b.tags[n - 1];
    if t.title == "route" {
      StepRoutePaths(b, st, t);
      var route := ParseRoute(t.description);
      var st1 := OpenRoute(b, st, t);
      var prev := GetOp(st.paths, route);
      var base := if prev.Some? then prev.value else EmptyOperation;
      var op := base.(parameters := NewArray, description := ParseDescription(b), tags := [ParseTag(b.tags)[0]]);
      assert st1.paths == PutOp(st.paths, route, op);
      PutOpKeys(st.paths, route, op);
      PutOpKeys(st1.paths, route, Attach(b, GetOp(st1.paths, route).value));
      assert Run(b, n).value.paths.Keys == st.paths.Keys + {route.uri};
      forall u ensures u in Run(b, n).value.paths <==> UriSeen(b.tags, n, u) {
        UriSeenRoute(b.tags, n, u);
      }
    } else {
      StepOtherPaths(b, st, t);
      if st.route.Some? {
        var cur := GetOp(st.paths, st.route.value).value;
        PutOpKeys(st.paths, st.route.value, Attach(b, Annotate(cur, t)));
      }
      assert Run(b, n).value.paths.Keys == st.paths.Keys;
      forall u ensures u in Run(b, n).value.paths <==> UriSeen(b.tags, n, u) {
        UriSeenOther(b.tags, n, u);
      }
    }
  }

  // ---------------------------------------------------------------- before the first route

  /** Before the first route tag, the only thing the fold remembers is the params it has
      pushed: the `operationId`, `summary`, `produces` and `consumes` tags seen so far
      leave no trace, so nothing can store them later. */
  lemma {:induction false} RunBeforeRoute(b: Block, n: nat)
    requires n <= |b.tags|
    requires RouteCount(b.tags, n) == 0
    ensures Run(b, n).Ok? <==> ParamsUpTo(b.tags, n).Ok?
    ensures Run(b, n).Ok? ==> Run(b, n).value == State(None, ParamsUpTo(b.tags, n).value, map[], [])
  {
    RunParams(b, n);
    if n > 0 {
      RunBeforeRoute(b, n - 1);
    }
  }

  // ---------------------------------------------------------------- the fragment

  /** The operations of a non-typedef block: one per distinct route of its route tags,
      each listing every param of the block in order (those before the route included),
      the responses of the whole block, the block's description and its group name, and
      carrying only route-dependent fields read while its own route was current. */
  lemma FileFormatOperations(b: Block)
    requires !IsTypedefBlock(b) && FileFormat(b).Ok?
    ensures ParamsUpTo(b.tags, |b.tags|).Ok?
    ensures forall rt :: GetOp(FileFormat(b).value.paths, rt).Some? <==> RouteSeen(b.tags, |b.tags|, rt)
    ensures forall rt :: GetOp(FileFormat(b).value.paths, rt).Some? ==>
              var op := GetOp(FileFormat(b).value.paths, rt).value;
              && op.parameters == ParamsUpTo(b.tags, |b.tags|).value
              && op.responses == Some(ParseReturn(b.tags))
              && op.description == ParseDescription(b)
              && op.tags == [ParseTag(b.tags)[0]]
              && Provenance(b.tags, |b.tags|, rt, op)
  {
    RunParams(b, |b.tags|);
    RunOperations(b, |b.tags|);
  }

  /** The uris of a non-typedef block's paths object are exactly those of its route tags;
      with `FileFormatOperations`, each uri holds exactly the methods routed to it. */
  lemma FileFormatPathsDomain(b: Block)
    requires !IsTypedefBlock(b) && FileFormat(b).Ok?
    ensures forall u :: u in FileFormat(b).value.paths <==> UriSeen(b.tags, |b.tags|, u)
  {
    RunPathKeys(b, |b.tags|);
  }

  /** The tag groups of a non-typedef block: one entry per route tag, each built from the
      block's first group tag (or `default`). */
  lemma FileFormatTagGroups(b: Block)
    requires !IsTypedefBlock(b) && FileFormat(b).Ok?
    ensures |FileFormat(b).value.tags| == RouteCount(b.tags, |b.tags|)
    ensures forall k :: 0 <= k < |FileFormat(b).value.tags| ==> FileFormat(b).value.tags[k] == GroupEntry(b.tags)
  {
    RunRouteAndTags(b, |b.tags|);
  }

  /** A block without a route tag yields nothing but an empty fragment (or the error of
      an untyped param). */
  lemma FileFormatWithoutRoute(b: Block)
    requires !IsTypedefBlock(b) && RouteCount(b.tags, |b.tags|) == 0 && FileFormat(b).Ok?
    ensures FileFormat(b).value == Fragment(map[], [], map[])
  {
    RunBeforeRoute(b, |b.tags|);
  }

  /** When every `operationId`, `summary`, `produces` and `consumes` tag comes before the
      first route tag, no operation carries any of those fields. */
  lemma FileFormatDropsEarlyFields(b: Block)
    requires !IsTypedefBlock(b) && FileFormat(b).Ok?
    requires forall i :: 0 <= i < |b.tags| && b.tags[i].title in {"operationId", "summary", "produces", "consumes"}
               ==> RouteCount(b.tags, i) == 0
    ensures forall rt :: GetOp(FileFormat(b).value.paths, rt).Some? ==>
              var op := GetOp(FileFormat(b).value.paths, rt).value;
              op.operationId.None? && op.summary.None? && op.produces.None? && op.consumes.None?
  {
    FileFormatOperations(b);
  }

  // ---------------------------------------------------------------- fields written after a route

  /** The titles whose tag writes one field of the current operation. */
  predicate RouteDependent(t: Tag)
  {
    t.title == "operationId" || t.title == "summary" || t.title == "produces" || t.title == "consumes"
  }

  /** `op` holds the value tag `t` writes, in the field `t`'s title names. */
  predicate Carries<P>(op: Operation<P>, t: Tag)
  {
    if t.title == "operationId" then op.operationId == Some(t.description)
    else if t.title == "summary" then op.summary == Some(t.description)
    else if t.title == "produces" then op.produces == Some(ParseProduces(t.description))
    else if t.title == "consumes" then op.consumes == Some(ParseConsumes(t.description))
    else true
  }

  /** A tag with another title leaves the field `u` wrote alone, and so do `Attach` and
      the re-initialisation a route performs on an existing slot. */
  lemma KeepsCarries(b: Block, op: Operation<ParamList>, t: Tag, u: Tag)
    requires t.title != u.title && Carries(op, u)
    ensures Carries(Attach(b, Annotate(op, t)), u)
    ensures Carries(op.(parameters := NewArray, description := ParseDescription(b), tags := [ParseTag(b.tags)[0]]), u)
  {
  }

  /** The paths after a `route` tag: its slot is (re)initialised and attached. */
  function RoutePaths(b: Block, st: State, t: Tag): Paths<ParamList>
  {
    var st1 := OpenRoute(b, st, t);
    var route := ParseRoute(t.description);
    PutOp(st1.paths, route, Attach(b, GetOp(st1.paths, route).value))
  }

  lemma StepRoutePaths(b: Block, st: State, t: Tag)
    requires t.title == "route" && CurrentExists(st)
    ensures Step(b, st, t).Ok? && Step(b, st, t).value.paths == RoutePaths(b, st, t)
  {
  }

  /** A `route` tag keeps, at any slot, the field `u` wrote. */
  lemma RouteKeepsCarries(b: Block, st: State, t: Tag, u: Tag, rt: Route)
    requires t.title == "route" && u.title != "route"
    requires GetOp(st.paths, rt).Some? && Carries(GetOp(st.paths, rt).value, u)
    ensures GetOp(RoutePaths(b, st, t), rt).Some? && Carries(GetOp(RoutePaths(b, st, t), rt).value, u)
  {
    var route := ParseRoute(t.description);
    var st1 := OpenRoute(b, st, t);
    if route == rt {
      var op := GetOp(st.paths, rt).value;
      var op1 := op.(parameters := NewArray, description := ParseDescription(b), tags := [ParseTag(b.tags)[0]]);
      assert GetOp(st1.paths, rt) == Some(op1);
      KeepsCarries(b, op, t, u);
      assert Attach(b, op1) == Attach(b, Annotate(op1, t));
      KeepsCarries(b, op1, t, u);
    } else {
      assert GetOp(st1.paths, rt) == GetOp(st.paths, rt);
    }
  }

  /** Any other tag keeps the field `u` wrote at a slot it does not write that field of:
      a slot that is not current, or a field of another title. */
  lemma OtherKeepsCarries(b: Block, st: State, t: Tag, u: Tag, rt: Route)
    requires CurrentExists(st) && t.title != "route" && (t.title != u.title || st.route != Some(rt))
    requires GetOp(st.paths, rt).Some? && Carries(GetOp(st.paths, rt).value, u)
    ensures GetOp(OtherPaths(b, st, t), rt).Some? && Carries(GetOp(OtherPaths(b, st, t), rt).value, u)
  {
    if st.route == Some(rt) {
      KeepsCarries(b, GetOp(st.paths, rt).value, t, u);
    }
  }

  /** A step keeps the field `u` wrote at slot `rt` unless it is a tag of `u`'s title
      read while `rt` is current. */
  lemma StepKeepsCarries(b: Block, st: State, t: Tag, u: Tag, rt: Route)
    requires CurrentExists(st) && (t.title != u.title || st.route != Some(rt)) && RouteDependent(u)
    requires GetOp(st.paths, rt).Some? && Carries(GetOp(st.paths, rt).value, u)
    requires Step(b, st, t).Ok?
    ensures GetOp(Step(b, st, t).value.paths, rt).Some?
    ensures Carries(GetOp(Step(b, st, t).value.paths, rt).value, u)
  {
    if t.title == "route" {
      StepRoutePaths(b, st, t);
      RouteKeepsCarries(b, st, t, u, rt);
    } else {
      StepOtherPaths(b, st, t);
      OtherKeepsCarries(b, st, t, u, rt);
    }
  }

  /** No tag among `tags[i+1..k]` with tag `i`'s title is read while the route that was
      current at tag `i` is current again. */
  predicate NotOverwritten(tags: seq<Tag>, i: nat, k: nat)
    requires i < k <= |tags|
  {
    forall j :: i < j < k && tags[j].title == tags[i].title ==> LastRoute(tags, j) != LastRoute(tags, i)
  }

  /** A route-dependent tag read while a route is set is written to the current route's
      operation. */
  lemma RunStores(b: Block, i: nat)
    requires i < |b.tags| && RouteDependent(b.tags[i]) && RouteCount(b.tags, i) > 0
    requires Run(b, i + 1).Ok?
    ensures GetOp(Run(b, i + 1).value.paths, LastRoute(b.tags, i).value).Some?
    ensures Carries(GetOp(Run(b, i + 1).value.paths, LastRoute(b.tags, i).value).value, b.tags[i])
  {
    RunRouteAndTags(b, i);
    var st := Run(b, i).value;
    var t := b.tags[i];
    var cur := GetOp(st.paths, st.route.value).value;
    assert Run(b, i + 1).value.paths == PutOp(st.paths, st.route.value, Attach(b, Annotate(cur, t)));
  }

  /** Tag `k - 1` keeps the field `u` wrote at slot `rt` unless it has `u`'s title and is
      read while `rt` is current. */
  lemma RunKeepsCarries(b: Block, k: nat, u: Tag, rt: Route)
    requires 1 <= k <= |b.tags| && RouteDependent(u) && Run(b, k).Ok?
    requires b.tags[k - 1].title != u.title || LastRoute(b.tags, k - 1) != Some(rt)
    requires GetOp(Run(b, k - 1).value.paths, rt).Some? && Carries(GetOp(Run(b, k - 1).value.paths, rt).value, u)
    ensures GetOp(Run(b, k).value.paths, rt).Some? && Carries(GetOp(Run(b, k).value.paths, rt).value, u)
  {
    RunRouteAndTags(b, k - 1);
    StepKeepsCarries(b, Run(b, k - 1).value, b.tags[k - 1], u, rt);
  }

  /** A route-dependent tag read while a route is set is stored on the current route's
      operation and stays there until a later tag of the same title is read while the
      same route is current. */
  lemma {:induction false} RunCarries(b: Block, i: nat, k: nat)
    requires i < k <= |b.tags| && RouteDependent(b.tags[i]) && RouteCount(b.tags, i) > 0
    requires NotOverwritten(b.tags, i, k)
    requires Run(b, k).Ok?
    ensures GetOp(Run(b, k).value.paths, LastRoute(b.tags, i).value).Some?
    ensures Carries(GetOp(Run(b, k).value.paths, LastRoute(b.tags, i).value).value, b.tags[i])
  {
    if k == i + 1 {
      RunStores(b, i);
    } else {
      assert Run(b, k - 1).Ok?;
      RunCarries(b, i, k - 1);
      RunKeepsCarries(b, k, b.tags[i], LastRoute(b.tags, i).value);
    }
  }

  /** The completeness half of `Provenance`: an `operationId`, `summary`, `produces` or
      `consumes` tag that a route tag precedes ends up on the operation of the last route
      before it, unless a later tag of its title is read while that same route is current. */
  lemma FileFormatStoresField(b: Block, i: nat)
    requires !IsTypedefBlock(b) && FileFormat(b).Ok?
    requires i < |b.tags| && RouteDependent(b.tags[i]) && RouteCount(b.tags, i) > 0
    requires NotOverwritten(b.tags, i, |b.tags|)
    ensures GetOp(FileFormat(b).value.paths, LastRoute(b.tags, i).value).Some?
    ensures Carries(GetOp(FileFormat(b).value.paths, LastRoute(b.tags, i).value).value, b.tags[i])
  {
    RunCarries(b, i, |b.tags|);
  }
}
