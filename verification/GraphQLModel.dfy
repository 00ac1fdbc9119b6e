/** The GraphQL metadata of graphql/model.go and its selectors (graphql/selectors.go). */
module GraphQLModel {
  import opened Text
  import opened Wrappers
  import ProtoModel

  datatype TypeRef = TypeRef(name: string, kind: string, display: string, required: bool, list: bool,
                             ofType: Option<TypeRef>)

  const NoType := TypeRef("", "", "", false, false, None)

  datatype Argument = Argument(name: string, description: string, typ: TypeRef, defaultValue: string, required: bool)

  datatype Field = Field(name: string, description: string, typ: TypeRef, args: seq<Argument>)

  datatype EnumValue = EnumValue(name: string, description: string)

  datatype Type = Type(name: string, kind: string, description: string, fields: seq<Field>, inputFields: seq<Argument>,
                       enumValues: seq<EnumValue>, unionMembers: seq<string>)

  datatype RootTypes = RootTypes(queryType: string, mutationType: string, subscriptionType: string, description: string)

  /** The selection names of a document operation, or the field of a schema root. */
  datatype Operation = Operation(name: string, kind: string, id: string, selector: string, sourceRef: string,
                                 description: string, variables: seq<Argument>, selectionNames: seq<string>,
                                 fieldName: string, fieldType: TypeRef, rootType: string)

  datatype Model = Model(schema: RootTypes, types: seq<Type>, operations: seq<Operation>)

  /** OperationSelector */
  function OperationSelector(id: string): string {
    "#/operations/" + ProtoModel.Escape(TrimSpace(id))
  }

  /** SchemaFieldSelector */
  function FieldSelector(rootType: string, fieldName: string): string {
    "#/schema/" + ProtoModel.Escape(TrimSpace(rootType)) + "/fields/" + ProtoModel.Escape(TrimSpace(fieldName))
  }

  /** OperationByID */
  function OperationByID(operations: seq<Operation>, id: string): Option<Operation> {
    if operations == [] then None
    else if operations[0].id == TrimSpace(id) then Some(operations[0])
    else OperationByID(operations[1..], id)
  }

  /** operationSelectorAliases */
  function Aliases(op: Operation): set<string> {
    set alias | alias in [op.id, op.name, "operation:" + op.id, op.selector, op.sourceRef] && TrimSpace(alias) != "" ::
      TrimSpace(alias)
  }

  /** ResolveSelector: the first operation with that alias. */
  function ResolveSelector(operations: seq<Operation>, selector: string): Option<Operation> {
    if operations == [] then None
    else if TrimSpace(selector) in Aliases(operations[0]) then Some(operations[0])
    else ResolveSelector(operations[1..], selector)
  }
}
