/** The list assembly of `App.createSchema` (src/app.ts): the type
    definitions and resolver maps of every controller, in order, followed by
    the built-in diagnostics fragment. The merge of these lists into one
    executable schema belongs to the schema library and is not modelled. */
module Schema {

  /** A parsed type-definition document, kept as its source text. */
  datatype Document = Document(source: string)

  /** A resolver function: one contributed by a controller (opaque, known by
      name only) or the built-in `chechConnection` resolver of the App. */
  datatype Resolver = Foreign(name: string) | ChechConnection

  /** A resolver object: type name to field name to resolver. */
  type ResolverMap = map<string, map<string, Resolver>>

  /** A `Type.field` key of a resolver map. */
  type FieldPath = (string, string)

  /** What a controller supplies: its type definitions and its resolvers. */
  datatype Controller = Controller(typeDefs: Document, resolvers: ResolverMap)

  /** The diagnostics type definitions: type `Status` and the query field
      `chechConnection` (the spelling of the deployed field). */
  const DiagnosticsTypeDefs: Document :=
    Document("type Status { status: Boolean, message: String } type Query { chechConnection: Status }")

  /** The diagnostics resolvers: `Query.chechConnection`. */
  const DiagnosticsResolvers: ResolverMap := map["Query" := map["chechConnection" := ChechConnection]]

  const DiagnosticsPath: FieldPath := ("Query", "chechConnection")

  /** The type definitions of the controllers, in order. */
  function TypeDefsOf(controllers: seq<Controller>): (docs: seq<Document>)
    ensures |docs| == |controllers|
    ensures forall i :: 0 <= i < |controllers| ==> docs[i] == controllers[i].typeDefs
  {
    seq(|controllers|, i requires 0 <= i < |controllers| => controllers[i].typeDefs)
  }

  /** The resolver maps of the controllers, in order. */
  function ResolversOf(controllers: seq<Controller>): (maps: seq<ResolverMap>)
    ensures |maps| == |controllers|
    ensures forall i :: 0 <= i < |controllers| ==> maps[i] == controllers[i].resolvers
  {
    seq(|controllers|, i requires 0 <= i < |controllers| => controllers[i].resolvers)
  }

  /** The field paths one resolver map defines. */
  function Paths(m: ResolverMap): set<FieldPath>
  {
    set t, f | t in m && f in m[t] :: (t, f)
  }

  /** The field paths a list of resolver maps defines together. */
  function AllPaths(maps: seq<ResolverMap>): set<FieldPath>
  {
    if maps == [] then {} else Paths(maps[0]) + AllPaths(maps[1..])
  }

  /** The paths of a concatenation are the union of the paths. */
  lemma {:induction false} AllPathsAppend(a: seq<ResolverMap>, b: seq<ResolverMap>)
    ensures AllPaths(a + b) == AllPaths(a) + AllPaths(b)
    decreases |a|
  {
    if a == [] {
      assert a + b == b;
    } else {
      assert (a + b)[1..] == a[1..] + b;
      AllPathsAppend(a[1..], b);
    }
  }

  /** `createSchema`'s list building: one push per controller in input
      order, then the diagnostics fragment last. */
  method CreateSchema(controllers: seq<Controller>) returns (typeDefs: seq<Document>, resolvers: seq<ResolverMap>)
    ensures typeDefs == TypeDefsOf(controllers) + [DiagnosticsTypeDefs]
    ensures resolvers == ResolversOf(controllers) + [DiagnosticsResolvers]
  {
    typeDefs, resolvers := [], [];
    for i := 0 to |controllers|
      invariant typeDefs == TypeDefsOf(controllers[..i])
      invariant resolvers == ResolversOf(controllers[..i])
    {
      typeDefs := typeDefs + [controllers[i].typeDefs];
      resolvers := resolvers + [controllers[i].resolvers];
    }
    assert controllers[..|controllers|] == controllers;
    typeDefs := typeDefs + [DiagnosticsTypeDefs];
    resolvers := resolvers + [DiagnosticsResolvers];
  }

  /** The assembled resolver list defines exactly the controllers' field
      paths plus `Query.chechConnection`, whatever the controllers are. */
  lemma {:induction false} AssembledPaths(controllers: seq<Controller>)
    ensures AllPaths(ResolversOf(controllers) + [DiagnosticsResolvers]) ==
      AllPaths(ResolversOf(controllers)) + {DiagnosticsPath}
  {
    AllPathsAppend(ResolversOf(controllers), [DiagnosticsResolvers]);
    assert [DiagnosticsResolvers][1..] == [];
    assert Paths(DiagnosticsResolvers) == {DiagnosticsPath};
  }
}
