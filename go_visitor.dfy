/** The dispatch table of the generated GoVisitor: one handler per node kind,
    each forwarding to a category handler (expression, statement, type or the
    common composite-element handler), the category handlers forwarding to
    visitCompositeElement, and that one to the platform's visitElement. Every
    handler makes exactly one forwarding call and holds no state, so the table
    is a function from handler to the handler it calls. */
module GoVisitor {
  import opened FirstMatch

  /** The node kinds that have their own visitXxx handler. `Element` is the
      handler for the GoElement interface, visitElement(GoElement), which is
      distinct from the platform's visitElement(PsiElement). */
  datatype NodeKind =
    AddExpr | AndExpr | AnonymousField | ArgumentList | ArrayOrSliceType |
    AssignmentStatement | BaseType | Block | BreakStatement | BuiltinArgs | BuiltinCallExpr |
    CallExpr | ChannelType | CommCase | CommClause | CompositeLit | ConditionalExpr |
    ConstDecl | ConstSpec | ContinueStatement | ConversionExpr | DeclarationStatement |
    DeferStatement | Element | ElementIndex | ExprCaseClause | ExprSwitchCase |
    ExprSwitchStatement | FallthroughStatement | FieldDecl | FieldName | ForClause |
    ForStatement | Function | FunctionBody | FunctionDecl | FunctionLit | FunctionName |
    FunctionType | GoStatement | GotoStatement | IfStatement | ImportDecl | ImportSpec |
    IndexExpr | InterfaceType | InterfaceTypeName | Key | KeyType | LabeledStatement |
    Literal | LiteralType | LiteralValue | MapType | MethodDecl | MethodExpr | MethodSpec |
    MulExpr | OperandName | OrExpr | PackageClause | ParameterDecl | Parameters |
    ParentheziedExpr | PointerType | QualifiedIdent | RangeClause | Receiver | ReceiverType |
    RecvStatement | Result | ReturnStatement | SelectStatement | SelectorExpr | SendStatement |
    ShortVarDecl | Signature | SimpleStatement | SliceExpr | StructType | SwitchStatement |
    Tag | TopLevelDecl | TypeAssertionExpr | TypeCaseClause | TypeDecl | TypeList | TypeLit |
    TypeName | TypeSpec | TypeSwitchCase | TypeSwitchGuard | TypeSwitchStatement | UnaryExpr |
    Value | VarDecl | VarSpec | AssignOp

  /** The handlers a call can pass through. */
  datatype Handler =
    | Visit(kind: NodeKind)        // visitXxx for one node kind
    | VisitExpression
    | VisitStatement
    | VisitType
    | VisitCompositeElement
    | PlatformVisitElement         // PsiElementVisitor.visitElement(PsiElement)

  /** The kinds whose handler forwards to visitExpression. */
  const ExpressionKinds: set<NodeKind> := {
    AddExpr, AndExpr, BuiltinCallExpr, CallExpr, CompositeLit, ConditionalExpr, ConversionExpr,
    FunctionLit, IndexExpr, Literal, MethodExpr, MulExpr, OperandName, OrExpr,
    ParentheziedExpr, QualifiedIdent, SelectorExpr, SliceExpr, TypeAssertionExpr, TypeLit,
    UnaryExpr
  }

  /** The kinds whose handler forwards to visitStatement. */
  const StatementKinds: set<NodeKind> := {
    AssignmentStatement, BreakStatement, ContinueStatement, DeclarationStatement,
    DeferStatement, ExprSwitchStatement, FallthroughStatement, ForStatement, GoStatement,
    GotoStatement, IfStatement, LabeledStatement, RecvStatement, ReturnStatement,
    SelectStatement, SendStatement, SimpleStatement, SwitchStatement, TypeSwitchStatement
  }

  /** The kinds whose handler forwards to visitType. */
  const TypeKinds: set<NodeKind> := {
    ArrayOrSliceType, BaseType, ChannelType, FunctionType, InterfaceType, KeyType, LiteralType,
    MapType, PointerType, ReceiverType, StructType
  }

  /** The category handler a node-kind handler forwards to; every kind not
      listed above forwards to visitCompositeElement. */
  function Category(k: NodeKind): (r: Handler)
    ensures r.VisitExpression? || r.VisitStatement? || r.VisitType? || r.VisitCompositeElement?
  {
    if k in ExpressionKinds then VisitExpression
    else if k in StatementKinds then VisitStatement
    else if k in TypeKinds then VisitType
    else VisitCompositeElement
  }

  /** The handler that `h` calls, or None for the platform's handler, which
      is where GoVisitor's forwarding ends. */
  function Forward(h: Handler): (r: Option<Handler>)
    ensures r.None? <==> h.PlatformVisitElement?
    ensures r.Some? ==> Level(r.value) < Level(h)
  {
    match h
    case Visit(k) => Some(Category(k))
    case VisitExpression => Some(VisitCompositeElement)
    case VisitStatement => Some(VisitCompositeElement)
    case VisitType => Some(VisitCompositeElement)
    case VisitCompositeElement => Some(PlatformVisitElement)
    case PlatformVisitElement => None
  }

  /** How many forwarding calls at most separate `h` from the platform. */
  function Level(h: Handler): nat {
    match h
    case PlatformVisitElement => 0
    case VisitCompositeElement => 1
    case Visit(_) => 3
    case _ => 2
  }

  /** The handlers a call to `h` passes through, `h` first; every handler
      calls the next one. */
  function Chain(h: Handler): (r: seq<Handler>)
    ensures |r| >= 1 && r[0] == h && r[|r| - 1] == PlatformVisitElement
    ensures |r| <= Level(h) + 1 <= 4
    ensures forall i :: 0 <= i < |r| - 1 ==> Forward(r[i]) == Some(r[i + 1])

    decreases Level(h)
  {
    match Forward(h)
    case None => [h]
    case Some(next) => [h] + Chain(next)
  }

  /** A node kind's handler: its own category handler, then
      visitCompositeElement when that is not already the category, then the
      platform. */
  lemma KindChain(k: NodeKind)
    ensures Chain(Visit(k))
         == [Visit(k)]
            + (if Category(k) == VisitCompositeElement then [] else [Category(k)])
            + [VisitCompositeElement, PlatformVisitElement]
  {
    var c := Category(k);
    assert Chain(Visit(k)) == [Visit(k)] + Chain(c);
    CategoryChain(c);
  }

  /** A category handler's chain: itself, visitCompositeElement unless it is
      that handler, then the platform. */
  lemma CategoryChain(c: Handler)
    requires c.VisitExpression? || c.VisitStatement? || c.VisitType? || c.VisitCompositeElement?
    ensures Chain(c)
         == (if c == VisitCompositeElement then [] else [c]) + [VisitCompositeElement, PlatformVisitElement]
  {
    assert Chain(PlatformVisitElement) == [PlatformVisitElement];
    assert Chain(VisitCompositeElement) == [VisitCompositeElement] + Chain(PlatformVisitElement);
    if c != VisitCompositeElement {
      assert Chain(c) == [c] + Chain(VisitCompositeElement);
    }
  }

  /** visitElement(GoElement) reaches the platform's visitElement(PsiElement)
      through visitCompositeElement and does not call itself again: the two
      are different overloads. */
  lemma ElementHandlerReachesPlatform()
    ensures Chain(Visit(Element)) == [Visit(Element), VisitCompositeElement, PlatformVisitElement]
    ensures Visit(Element) !in Chain(VisitCompositeElement)
  {
    assert Category(Element) == VisitCompositeElement;
    KindChain(Element);
    assert Chain(VisitCompositeElement) == [VisitCompositeElement, PlatformVisitElement];
  }

  /** Every call moves strictly down the levels, so no handler occurs twice
      on a chain: the forwarding has no cycle. */
  lemma {:induction false} ChainDescends(h: Handler)
    ensures forall i :: 0 <= i < |Chain(h)| ==> Level(Chain(h)[i]) <= Level(h)
    ensures forall i, j :: 0 <= i < j < |Chain(h)| ==> Level(Chain(h)[j]) < Level(Chain(h)[i])
    ensures forall i, j :: 0 <= i < j < |Chain(h)| ==> Chain(h)[i] != Chain(h)[j]
    decreases Level(h)
  {
    if Forward(h).Some? {
      var next := Forward(h).value;
      ChainDescends(next);
      assert Chain(h) == [h] + Chain(next);
    }
  }

  // ---------------------------------------------------------------------
  // Overriding handlers

  /** The handler that runs for a call to `h` when a subclass overrides the
      handlers in `overridden`: the first overridden handler along the
      chain, or the platform's handler when none is. */
  function Dispatch(h: Handler, overridden: set<Handler>): (r: Handler)
    ensures r in Chain(h)
    ensures r in overridden || r == PlatformVisitElement
    ensures forall i :: 0 <= i < |Chain(h)| && Chain(h)[i] == r ==>
      forall j :: 0 <= j < i ==> Chain(h)[j] !in overridden
    decreases Level(h)
  {
    if h in overridden || h.PlatformVisitElement? then h
    else Dispatch(Forward(h).value, overridden)
  }

  /** Overriding a category handler intercepts every kind that forwards to
      it, unless that kind's own handler is overridden. */
  lemma CategoryOverrideIntercepts(k: NodeKind, overridden: set<Handler>)
    requires Category(k) in overridden
    ensures Visit(k) in overridden ==> Dispatch(Visit(k), overridden) == Visit(k)
    ensures Visit(k) !in overridden ==> Dispatch(Visit(k), overridden) == Category(k)
  {
  }

  /** Overriding visitCompositeElement alone intercepts every handler of
      GoVisitor. */
  lemma {:induction false} CompositeElementCatchesAll(h: Handler)
    requires !h.PlatformVisitElement?
    ensures Dispatch(h, {VisitCompositeElement}) == VisitCompositeElement
    decreases Level(h)
  {
    if h != VisitCompositeElement {
      CompositeElementCatchesAll(Forward(h).value);
    }
  }

  /** Overriding nothing runs only the platform's handler. */
  lemma {:induction false} NoOverrideReachesPlatform(h: Handler)
    ensures Dispatch(h, {}) == PlatformVisitElement
    decreases Level(h)
  {
    if !h.PlatformVisitElement? {
      NoOverrideReachesPlatform(Forward(h).value);
    }
  }

  // ---------------------------------------------------------------------
  // The shape of the table

  /** No kind is listed under two categories, so the order of the tests in
      Category is immaterial: each handler of the table makes exactly one
      forwarding call. */
  lemma ExpressionKindsAreOnlyExpressions(k: NodeKind)
    requires k in ExpressionKinds
    ensures k !in StatementKinds && k !in TypeKinds
  {
  }

  lemma StatementKindsAreNotTypes(k: NodeKind)
    requires k in StatementKinds
    ensures k !in TypeKinds
  {
  }

  /** Examples from the table: type literals are expressions. */
  lemma ExpressionExamples()
    ensures Category(AddExpr) == VisitExpression && Category(CallExpr) == VisitExpression
    ensures Category(SelectorExpr) == VisitExpression && Category(OperandName) == VisitExpression
    ensures Category(TypeLit) == VisitExpression
  {
  }

  lemma StatementExamples()
    ensures Category(AssignmentStatement) == VisitStatement && Category(ForStatement) == VisitStatement
    ensures Category(ReturnStatement) == VisitStatement
  {
  }

  lemma TypeExamples()
    ensures Category(ArrayOrSliceType) == VisitType && Category(PointerType) == VisitType
    ensures Category(StructType) == VisitType && Category(ReceiverType) == VisitType
  {
  }

  /** A type name is not a type kind: visitTypeName goes to
      visitCompositeElement, as does visitElement(GoElement). */
  lemma CompositeExamples()
    ensures Category(TypeName) == VisitCompositeElement && Category(Element) == VisitCompositeElement
  {
  }
}
