/** The two documents backend/routes/openapi_documents.py cuts from the application's
    schema: the node contract, and the public document that contains it. */
module OpenApiDocuments {
  import opened Hoisting
  import opened RefClosure
  import opened Wrappers

  /** The parts of the application's schema the documents are cut from. */
  datatype App = App(paths: Json, declared: Schemas, security: map<string, Json>)

  /** `securitySchemes` is present only when some operation names one. */
  datatype Document = Document(paths: map<string, Json>, schemas: Schemas, security: Option<map<string, Json>>)

  const NODE_PATH_PREFIX := "/v1/nodes"
  const PUBLIC_READ_PREFIXES := ["/api/v1/", "/api/radar/", "/api/data/", "/api/stats/", "/api/custody/"]

  predicate IsNodePath(path: string) {
    path == NODE_PATH_PREFIX || StartsWith(path, NODE_PATH_PREFIX + "/")
  }

  predicate IsPublicRead(path: string, verb: string) {
    verb == "get" && (path == "/api/health"
                      || exists i :: 0 <= i < |PUBLIC_READ_PREFIXES| && StartsWith(path, PUBLIC_READ_PREFIXES[i]))
  }

  /** An object's members; the code reads members only of objects. */
  function Members(node: Json): map<string, Json> {
    if node.Obj? then node.fields else map[]
  }

  /** Paths hold path items, path items operations, operations an object of responses and
      a list of security requirements: the shape every dict access here relies on. */
  predicate Shaped(paths: Json) {
    && paths.Obj?
    && forall path :: path in paths.fields ==> ShapedItem(paths.fields[path])
  }

  predicate ShapedItem(item: Json) {
    && item.Obj?
    && forall verb :: verb in item.fields ==> ShapedOperation(item.fields[verb])
  }

  predicate ShapedOperation(op: Json) {
    && op.Obj?
    && ("responses" in op.fields ==> op.fields["responses"].Obj?)
    && ("security" in op.fields ==>
          op.fields["security"].Arr? && forall i :: 0 <= i < |op.fields["security"].items| ==>
            op.fields["security"].items[i].Obj?)
  }

  // ── the cuts ──────────────────────────────────────────────────────────────

  function Without422(op: Json): Json {
    Obj(map key | key in Members(op) ::
          if key == "responses"
          then Obj(map code | code in Members(Members(op)[key]) && code != "422" :: Members(Members(op)[key])[code])
          else Members(op)[key])
  }

  function NodeItem(item: Json): Json {
    Obj(map verb | verb in Members(item) :: Without422(Members(item)[verb]))
  }

  function Reads(path: string, item: Json): map<string, Json> {
    map verb | verb in Members(item) && IsPublicRead(path, verb) :: Members(item)[verb]
  }

  method NodePaths(paths: map<string, Json>) returns (node: map<string, Json>)
    ensures forall path :: path in node <==> path in paths && IsNodePath(path)
    ensures forall path :: path in node ==> node[path] == NodeItem(paths[path])
  {
    node := map[];
    var left := paths.Keys;
    while left != {}
      invariant left <= paths.Keys
      invariant forall path :: path in node <==> path in paths.Keys - left && IsNodePath(path)
      invariant forall path :: path in node ==> node[path] == NodeItem(paths[path])
      decreases |left|
    {
      var path :| path in left;
      left := left - {path};
      if IsNodePath(path) { node := node[path := NodeItem(paths[path])]; }
    }
  }

  /** The node paths, and the public reads of every other path that has any. */
  method PublicPaths(paths: map<string, Json>) returns (public: map<string, Json>)
    ensures forall path :: path in public <==> path in paths && (IsNodePath(path) || Reads(path, paths[path]) != map[])
    ensures forall path :: path in public ==>
              public[path] == if IsNodePath(path) then NodeItem(paths[path]) else Obj(Reads(path, paths[path]))
  {
    public := NodePaths(paths);
    var left := paths.Keys;
    while left != {}
      invariant left <= paths.Keys
      invariant forall path :: path in public <==>
                  path in paths && (IsNodePath(path) || (path !in left && Reads(path, paths[path]) != map[]))
      invariant forall path :: path in public ==>
                  public[path] == if IsNodePath(path) then NodeItem(paths[path]) else Obj(Reads(path, paths[path]))
      decreases |left|
    {
      var path :| path in left;
      left := left - {path};
      var shown := Reads(path, paths[path]);
      if shown != map[] && !IsNodePath(path) { public := public[path := Obj(shown)]; }
    }
  }

  /** The security schemes some operation of the paths requires. */
  function UsedSchemes(paths: map<string, Json>): set<string> {
    set path, verb, name | path in paths.Keys && verb in Members(paths[path]).Keys
                           && name in Required(Members(paths[path])[verb]) :: name
  }

  function Required(op: Json): set<string> {
    if "security" in Members(op) && Members(op)["security"].Arr? then
      var entries := Members(op)["security"].items;
      set i, name | 0 <= i < |entries| && name in Members(entries[i]).Keys :: name
    else {}
  }

  function Security(paths: map<string, Json>, schemes: map<string, Json>): Option<map<string, Json>> {
    if UsedSchemes(paths) == {} then None
    else Some(map name | name in UsedSchemes(paths) && name in schemes :: schemes[name])
  }

  function InjectedSchemas(injected: seq<Injection>): Schemas {
    if injected == [] then map[] else InjectedSchemas(injected[1..])[injected[0].name := injected[0].schema]
  }

  predicate Clashes(app: App, injected: seq<Injection>) {
    exists i :: 0 <= i < |injected| && injected[i].name in app.declared
  }

  /** The hoisted component schemas, the injected ones among them. */
  function PartSchemas(app: App, injected: seq<Injection>): Schemas {
    Members(Hoisted(Obj(app.declared), injected)) + InjectedSchemas(injected)
  }

  /** What a document over `paths` must hold: the schemas and schemes the paths reach. */
  ghost predicate CutFrom(app: App, injected: seq<Injection>, doc: Document) {
    && IsClosure(Obj(doc.paths), PartSchemas(app, injected), doc.schemas)
    && doc.security == Security(doc.paths, app.security)
  }

  ghost predicate IsNodeContract(app: App, injected: seq<Injection>, doc: Document) {
    var paths := Members(Hoisted(app.paths, injected));
    && (forall path :: path in doc.paths <==> path in paths && IsNodePath(path))
    && (forall path :: path in doc.paths ==> doc.paths[path] == NodeItem(paths[path]))
    && CutFrom(app, injected, doc)
  }

  ghost predicate IsPublicDocument(app: App, injected: seq<Injection>, doc: Document) {
    var paths := Members(Hoisted(app.paths, injected));
    && (forall path :: path in doc.paths <==> path in paths && (IsNodePath(path) || Reads(path, paths[path]) != map[]))
    && (forall path :: path in doc.paths ==>
          doc.paths[path] == if IsNodePath(path) then NodeItem(paths[path]) else Obj(Reads(path, paths[path])))
    && CutFrom(app, injected, doc)
  }

  /** None where the original raises: an injected name is already an application model. */
  method NodeContract(app: App, injected: seq<Injection>) returns (doc: Option<Document>)
    requires Shaped(Hoisted(app.paths, injected))
    ensures doc.None? <==> exists i :: 0 <= i < |injected| && injected[i].name in app.declared
    ensures doc.Some? ==> IsNodeContract(app, injected, doc.value)
  {
    if Clashes(app, injected) { return None; }
    var paths := NodePaths(Members(Hoisted(app.paths, injected)));
    var schemas := Closure(Obj(paths), PartSchemas(app, injected));
    doc := Some(Document(paths, schemas, Security(paths, app.security)));
  }

  method PublicDocument(app: App, injected: seq<Injection>) returns (doc: Option<Document>)
    requires Shaped(Hoisted(app.paths, injected))
    ensures doc.None? <==> exists i :: 0 <= i < |injected| && injected[i].name in app.declared
    ensures doc.Some? ==> IsPublicDocument(app, injected, doc.value)
  {
    if Clashes(app, injected) { return None; }
    var paths := PublicPaths(Members(Hoisted(app.paths, injected)));
    var schemas := Closure(Obj(paths), PartSchemas(app, injected));
    doc := Some(Document(paths, schemas, Security(paths, app.security)));
  }

  // ── what is published ─────────────────────────────────────────────────────

  predicate Has(paths: map<string, Json>, path: string, verb: string) {
    path in paths && paths[path].Obj? && verb in paths[path].fields
  }

  /** The same operation but for its response to 422, if it has one. */
  ghost predicate Loses422(op: Json, cut: Json) {
    && op.Obj? && cut.Obj? && cut.fields.Keys == op.fields.Keys
    && (forall key :: key in op.fields && key != "responses" ==> cut.fields[key] == op.fields[key])
    && ("responses" in op.fields && op.fields["responses"].Obj? ==>
          cut.fields["responses"].Obj?
          && var before, after := op.fields["responses"].fields, cut.fields["responses"].fields;
             && (forall code :: code in after <==> code in before && code != "422")
             && (forall code :: code in after ==> after[code] == before[code]))
  }

  lemma Without422Loses422(op: Json)
    requires ShapedOperation(op)
    ensures Loses422(op, Without422(op))
  {
  }

  predicate InNodeApi(path: string) {
    path == "/v1/nodes" || "/v1/nodes/" <= path
  }

  predicate Readable(path: string) {
    || path == "/api/health" || "/api/v1/" <= path || "/api/radar/" <= path || "/api/data/" <= path
    || "/api/stats/" <= path || "/api/custody/" <= path
  }

  lemma ReadableIsPublicRead(path: string, verb: string)
    ensures IsPublicRead(path, verb) <==> verb == "get" && Readable(path)
    ensures IsNodePath(path) <==> InNodeApi(path)
  {
    var p := PUBLIC_READ_PREFIXES;
    assert Readable(path) <==> path == "/api/health" || exists i :: 0 <= i < |p| && StartsWith(path, p[i]) by {
      assert StartsWith(path, p[0]) == ("/api/v1/" <= path) && StartsWith(path, p[1]) == ("/api/radar/" <= path);
      assert StartsWith(path, p[2]) == ("/api/data/" <= path) && StartsWith(path, p[3]) == ("/api/stats/" <= path);
      assert StartsWith(path, p[4]) == ("/api/custody/" <= path);
    }
  }

  /** The contract publishes every operation under /v1/nodes and no other, each as the application
      has it but for its 422. */
  lemma ContractIsTheNodeApi(app: App, injected: seq<Injection>, doc: Document, path: string, verb: string)
    requires IsNodeContract(app, injected, doc) && Shaped(Hoisted(app.paths, injected))
    ensures var source := Hoisted(app.paths, injected).fields;
            && (path in doc.paths <==> path in source && InNodeApi(path))
            && (Has(doc.paths, path, verb) <==> Has(source, path, verb) && InNodeApi(path))
            && (Has(doc.paths, path, verb) ==> Loses422(source[path].fields[verb], doc.paths[path].fields[verb]))
  {
    var source := Hoisted(app.paths, injected).fields;
    ReadableIsPublicRead(path, verb);
    if Has(source, path, verb) { Without422Loses422(source[path].fields[verb]); }
  }

  /** The public document publishes those, and outside /v1/nodes every "get" of a readable path and
      nothing else: no other verb and no other path, each operation as the application has it. */
  lemma PublicIsTheNodeApiAndReads(app: App, injected: seq<Injection>, doc: Document, path: string, verb: string)
    requires IsPublicDocument(app, injected, doc) && Shaped(Hoisted(app.paths, injected))
    ensures var source := Hoisted(app.paths, injected).fields;
            && (path in doc.paths <==>
                  path in source && (InNodeApi(path) || (Readable(path) && Has(source, path, "get"))))
            && (Has(doc.paths, path, verb) <==>
                  Has(source, path, verb) && (InNodeApi(path) || (Readable(path) && verb == "get")))
            && (Has(doc.paths, path, verb) ==>
                  if InNodeApi(path) then Loses422(source[path].fields[verb], doc.paths[path].fields[verb])
                  else doc.paths[path].fields[verb] == source[path].fields[verb])
  {
    var source := Hoisted(app.paths, injected).fields;
    ReadableIsPublicRead(path, verb);
    ReadableIsPublicRead(path, "get");
    if path in source {
      assert Reads(path, source[path]) != map[] ==> exists key :: key in Reads(path, source[path]);
      assert Has(source, path, "get") && Readable(path) ==> "get" in Reads(path, source[path]);
    }
    if Has(source, path, verb) { Without422Loses422(source[path].fields[verb]); }
  }

  /** The i-th entry of the operation's security names the scheme. */
  predicate NamesScheme(op: Json, i: nat, name: string) {
    && op.Obj? && "security" in op.fields && op.fields["security"].Arr? && i < |op.fields["security"].items|
    && op.fields["security"].items[i].Obj? && name in op.fields["security"].items[i].fields
  }

  predicate Asks(paths: map<string, Json>, path: string, verb: string, i: nat, name: string) {
    Has(paths, path, verb) && NamesScheme(paths[path].fields[verb], i, name)
  }

  lemma RequiredIsAskedFor(op: Json, name: string)
    ensures name in Required(op) <==> exists i :: NamesScheme(op, i, name)
  {
    if name in Required(op) {
      var entries := op.fields["security"].items;
      var i :| 0 <= i < |entries| && name in Members(entries[i]).Keys;
      assert NamesScheme(op, i, name);
    }
    forall i: nat | NamesScheme(op, i, name) ensures name in Required(op) {
      assert name in Members(op.fields["security"].items[i]).Keys;
    }
  }

  /** A document has security schemes exactly when some operation of it names one, and then those of
      the application's that are named, as the application has them. */
  lemma SchemesAreThoseAskedFor(app: App, injected: seq<Injection>, doc: Document, name: string)
    requires CutFrom(app, injected, doc)
    ensures doc.security.Some? <==> exists path, verb, i, other :: Asks(doc.paths, path, verb, i, other)
    ensures doc.security.Some? ==>
              && (name in doc.security.value <==>
                    name in app.security && exists path, verb, i :: Asks(doc.paths, path, verb, i, name))
              && (name in doc.security.value ==> doc.security.value[name] == app.security[name])
  {
    forall other
      ensures other in UsedSchemes(doc.paths) <==> exists path, verb, i :: Asks(doc.paths, path, verb, i, other)
    {
      UsedIsAskedFor(doc.paths, other);
    }
    if path, verb, i, other :| Asks(doc.paths, path, verb, i, other) {
      assert other in UsedSchemes(doc.paths);
    }
    if doc.security.Some? {
      var other :| other in UsedSchemes(doc.paths);
    }
  }

  lemma UsedIsAskedFor(paths: map<string, Json>, name: string)
    ensures name in UsedSchemes(paths) <==> exists path, verb, i :: Asks(paths, path, verb, i, name)
  {
    if name in UsedSchemes(paths) {
      var path, verb :| path in paths.Keys && verb in Members(paths[path]).Keys
                        && name in Required(Members(paths[path])[verb]);
      RequiredIsAskedFor(paths[path].fields[verb], name);
      var i :| NamesScheme(paths[path].fields[verb], i, name);
      assert Asks(paths, path, verb, i, name);
    }
    forall path, verb, i | Asks(paths, path, verb, i, name) ensures name in UsedSchemes(paths) {
      RequiredIsAskedFor(paths[path].fields[verb], name);
      assert name in Required(Members(paths[path])[verb]);
    }
  }

  lemma {:induction false} InjectedHoldsEach(injected: seq<Injection>, name: string)
    requires WellNamed(injected)
    ensures name in InjectedSchemas(injected) <==> exists i :: 0 <= i < |injected| && injected[i].name == name
    ensures forall i :: 0 <= i < |injected| && injected[i].name == name ==>
              name in InjectedSchemas(injected) && InjectedSchemas(injected)[name] == injected[i].schema
  {
    if injected != [] {
      InjectedHoldsEach(injected[1..], name);
      assert forall i :: 0 < i < |injected| ==> injected[i] == injected[1..][i - 1];
    }
  }

  /** Every schema of a document is an injected one whole, or the application's own, hoisted. */
  lemma SchemasAreTheModels(app: App, injected: seq<Injection>, doc: Document, name: string)
    requires WellNamed(injected) && CutFrom(app, injected, doc) && name in doc.schemas
    requires forall i :: 0 <= i < |injected| ==> injected[i].schema != Obj(app.declared)
    ensures (exists i :: 0 <= i < |injected| && injected[i] == Injection(name, doc.schemas[name]))
         || (name in app.declared && doc.schemas[name] == Hoisted(app.declared[name], injected))
  {
    InjectedHoldsEach(injected, name);
  }

  // ── the claims ────────────────────────────────────────────────────────────

  predicate Submap<V(==)>(small: map<string, V>, large: map<string, V>) {
    forall key :: key in small ==> key in large && large[key] == small[key]
  }

  lemma RefsOfSubmap(small: map<string, Json>, large: map<string, Json>)
    requires Submap(small, large)
    ensures Refs(Obj(small)) <= Refs(Obj(large))
  {
  }

  lemma SchemesOfSubmap(small: map<string, Json>, large: map<string, Json>)
    requires Submap(small, large)
    ensures UsedSchemes(small) <= UsedSchemes(large)
  {
  }

  lemma RefsOfRef(name: string)
    ensures name in Refs(Ref(name))
  {
    assert (REF_PREFIX + name)[|REF_PREFIX|..] == name;
  }

  /** A node that refers to no injected name has no injected reference at any depth. */
  lemma {:induction false} UnnamedIsRefFree(node: Json, injected: seq<Injection>)
    requires forall i :: 0 <= i < |injected| ==> injected[i].name !in Refs(node)
    ensures RefFree(node, injected)
    decreases node
  {
    match node
    case Obj(fields) =>
      forall i | 0 <= i < |injected| ensures node != Ref(injected[i].name) { RefsOfRef(injected[i].name); }
      forall key | key in fields ensures RefFree(fields[key], injected) {
        assert Refs(fields[key]) <= Refs(node);
        UnnamedIsRefFree(fields[key], injected);
      }
    case Arr(items) =>
      forall i | 0 <= i < |items| ensures RefFree(items[i], injected) {
        assert Refs(items[i]) <= Refs(node);
        UnnamedIsRefFree(items[i], injected);
      }
    case _ =>
  }

  /** Refusing declared names is what makes hoisting safe: an application that refers only to
      its own models is given back, paths and models, by resolving the injected references. */
  lemma ClashGuardPreservesMeaning(app: App, injected: seq<Injection>)
    requires WellNamed(injected) && SelfContained(injected) && !Clashes(app, injected)
    requires Refs(app.paths) <= app.declared.Keys && Refs(Obj(app.declared)) <= app.declared.Keys
    ensures Resolved(Hoisted(app.paths, injected), injected) == app.paths
    ensures Resolved(Hoisted(Obj(app.declared), injected), injected) == Obj(app.declared)
  {
    UnnamedIsRefFree(app.paths, injected);
    UnnamedIsRefFree(Obj(app.declared), injected);
    HoistingPreservesMeaningExactly(app.paths, injected);
    HoistingPreservesMeaningExactly(Obj(app.declared), injected);
  }

  /** The public document contains the node contract whole: its paths, its schemas and its
      security schemes, each with the same value; what it adds is public reads only. */
  lemma NodeContractIsARestriction(app: App, injected: seq<Injection>, contract: Document, public: Document)
    requires IsNodeContract(app, injected, contract) && IsPublicDocument(app, injected, public)
    ensures Submap(contract.paths, public.paths)
    ensures Submap(contract.schemas, public.schemas)
    ensures contract.security.Some? ==>
              public.security.Some? && Submap(contract.security.value, public.security.value)
    ensures forall path, verb :: path in public.paths && path !in contract.paths && verb in Members(public.paths[path]) ==>
              IsPublicRead(path, verb) && !IsNodePath(path)
  {
    RefsOfSubmap(contract.paths, public.paths);
    SchemesOfSubmap(contract.paths, public.paths);
    ClosureGrowsWithPaths(
      Obj(contract.paths), Obj(public.paths), PartSchemas(app, injected), contract.schemas, public.schemas);
  }

  predicate IsModel(app: App, injected: seq<Injection>, name: string) {
    name in app.declared || exists i :: 0 <= i < |injected| && injected[i].name == name
  }

  lemma ModelsAreParts(app: App, injected: seq<Injection>, name: string)
    requires WellNamed(injected) && forall i :: 0 <= i < |injected| ==> injected[i].schema != Obj(app.declared)
    ensures name in PartSchemas(app, injected) <==> IsModel(app, injected, name)
  {
    InjectedHoldsEach(injected, name);
  }

  /** A document stands alone: every model, the application's or injected, that its paths or its own
      schemas refer to at any depth is one of its schemas. */
  lemma DocumentsAreSelfContained(app: App, injected: seq<Injection>, doc: Document, name: string)
    requires WellNamed(injected) && forall i :: 0 <= i < |injected| ==> injected[i].schema != Obj(app.declared)
    requires CutFrom(app, injected, doc) && IsModel(app, injected, name)
    requires Occurs(Obj(doc.paths), name) || exists user :: user in doc.schemas && Occurs(doc.schemas[user], name)
    ensures name in doc.schemas
  {
    ModelsAreParts(app, injected, name);
    ClosureIsTheLeastClosed(Obj(doc.paths), PartSchemas(app, injected), doc.schemas, {}, name);
  }
}
