/**
 * Translation of IR attribute declarations and attribute specifications into
 * the typed object model (pyGHDL/dom/Attribute.py).
 *
 * The libghdl accessors and the separate name- and expression-translation
 * subsystems are not modelled: they are the fields of an `Ir` value, and every
 * result below holds for every such value. The global warning collector becomes
 * a list of warnings returned with the result.
 */
module DomAttribute {
  import opened Options
  import opened Libghdl
  import opened VhdlModel

  /**
   * The collaborators the translation calls, as given functions of a node.
   * `translateName` and `translateExpression` stand for `GetName` and
   * `GetExpressionFromNode`, which raise on shapes they do not support;
   * `None` is that exception.
   */
  datatype Ir = Ir(
    kindOf: Iir -> IirKind,                          // GetIirKindOfNode
    nameOf: Iir -> string,                           // GetNameOfNode
    documentationOf: Iir -> Option<string>,          // GetDocumentationOfNode
    typeMark: Iir -> Iir,                            // nodes.Get_Type_Mark
    attributeDesignator: Iir -> Iir,                 // nodes.Get_Attribute_Designator
    entityNameList: Iir -> seq<Iir>,                 // nodes.Get_Entity_Name_List, walked by utils.flist_iter
    entityClass: Iir -> Tok,                         // nodes.Get_Entity_Class
    expression: Iir -> Iir,                          // nodes.Get_Expression
    translateName: Iir -> Option<Name>,              // GetName
    translateExpression: Iir -> Option<Expression>)  // GetExpressionFromNode

  /** The `DOMException`s of this translation, and the exceptions of the collaborators. */
  datatype DomError =
    | UnknownNameKind(kind: IirKind, name: Iir, specification: Iir)
    | UnknownEntityClassToken(token: Tok, specification: Iir)
    | NameTranslationFailed(designator: Iir)
    | ExpressionTranslationFailed(expression: Iir)

  /** Warnings raised through the warning collector. */
  datatype DomWarning = SignatureNameNotImplemented

  /**
   * The outcome of a translation step: a value, or the error that aborted it.
   * Either way it carries the warnings raised before it ended, since the
   * collector keeps those even when an exception follows.
   */
  datatype Parsed<T> =
    | Success(value: T, warnings: seq<DomWarning>)
    | Failure(error: DomError, warnings: seq<DomWarning>)

  // ---------------------------------------------------------------------------
  // Attribute declarations

  /** `Attribute.parse`: the identifier, documentation and subtype mark of a declaration node. */
  function ParseAttribute(ir: Ir, attributeNode: Iir): (a: Attribute)
    ensures a.node == attributeNode
    ensures a.identifier == ir.nameOf(attributeNode)
    ensures a.documentation == ir.documentationOf(attributeNode)
    ensures a.subtype.node == ir.typeMark(attributeNode)
    ensures a.subtype.name.SimpleName? && a.subtype.name.node == a.subtype.node
    ensures a.subtype.name.identifier == ir.nameOf(a.subtype.node)
  {
    var name := ir.nameOf(attributeNode);
    var documentation := ir.documentationOf(attributeNode);
    var subtypeMark := ir.typeMark(attributeNode);
    var subtypeName := ir.nameOf(subtypeMark);
    var subtype := SimpleSubtypeSymbol(subtypeMark, Name.SimpleName(subtypeMark, subtypeName));
    Attribute(attributeNode, name, subtype, documentation)
  }

  // ---------------------------------------------------------------------------
  // Entity classes

  /**
   * `_TOKEN_TRANSLATION`: the entity-class keyword tokens and the class each
   * denotes; `None` for a token the table has no entry for (the `KeyError`).
   * `View` is deliberately left out of the table: it holds exactly the twenty
   * keyword tokens.
   */
  function TokenTranslation(token: Tok): (c: Option<EntityClass>)
    ensures c.Some? <==> !token.View? && !token.OtherToken?
  {
    match token
    case Entity => Some(EntityClass.Entity)
    case Architecture => Some(EntityClass.Architecture)
    case Configuration => Some(EntityClass.Configuration)
    case Procedure => Some(EntityClass.Procedure)
    case Function => Some(EntityClass.Function)
    case Package => Some(EntityClass.Package)
    case Type => Some(EntityClass.Type)
    case Subtype => Some(EntityClass.Subtype)
    case Constant => Some(EntityClass.Constant)
    case Signal => Some(EntityClass.Signal)
    case Variable => Some(EntityClass.Variable)
    case Component => Some(EntityClass.Component)
    case Label => Some(EntityClass.Label)
    case Literal => Some(EntityClass.Literal)
    case Units => Some(EntityClass.Units)
    case Group => Some(EntityClass.Group)
    case File => Some(EntityClass.File)
    case Property => Some(EntityClass.Property)
    case Sequence => Some(EntityClass.Sequence)
    case Others => Some(EntityClass.Others)
    case View => None
    case OtherToken(_) => None
  }

  /** The enumeration name of a keyword token. */
  function TokenName(t: Tok): string
    requires !t.OtherToken?
  {
    match t
    case Entity => "Entity"
    case Architecture => "Architecture"
    case Configuration => "Configuration"
    case Procedure => "Procedure"
    case Function => "Function"
    case Package => "Package"
    case Type => "Type"
    case Subtype => "Subtype"
    case Constant => "Constant"
    case Signal => "Signal"
    case Variable => "Variable"
    case Component => "Component"
    case Label => "Label"
    case Literal => "Literal"
    case Units => "Units"
    case Group => "Group"
    case File => "File"
    case Property => "Property"
    case Sequence => "Sequence"
    case Others => "Others"
    case View => "View"
  }

  /** The enumeration name of an entity class. */
  function ClassName(c: EntityClass): string
  {
    match c
    case Entity => "Entity"
    case Architecture => "Architecture"
    case Configuration => "Configuration"
    case Procedure => "Procedure"
    case Function => "Function"
    case Package => "Package"
    case Type => "Type"
    case Subtype => "Subtype"
    case Constant => "Constant"
    case Signal => "Signal"
    case Variable => "Variable"
    case Component => "Component"
    case Label => "Label"
    case Literal => "Literal"
    case Units => "Units"
    case Group => "Group"
    case File => "File"
    case Property => "Property"
    case Sequence => "Sequence"
    case Others => "Others"
  }

  /** Every token in the table maps to the entity class of the same name. */
  lemma TokenTranslationKeepsNames()
    ensures forall t :: TokenTranslation(t).Some? ==> ClassName(TokenTranslation(t).value) == TokenName(t)
  {
  }

  /** Distinct tokens map to distinct entity classes. */
  lemma TokenTranslationInjective()
    ensures forall t1, t2 :: TokenTranslation(t1).Some? && TokenTranslation(t1) == TokenTranslation(t2) ==> t1 == t2
  {
  }

  // ---------------------------------------------------------------------------
  // Entity name lists

  /**
   * The walk over an entity name list, element by element in list order: a
   * simple name is appended, a signature raises one warning and is skipped, any
   * other kind aborts. Every element walked over yields one name or one warning.
   */
  function TranslateNameList(ir: Ir, specification: Iir, elements: seq<Iir>): (r: Parsed<seq<Name>>)
    ensures r.Success? ==> |r.value| + |r.warnings| == |elements|
    ensures r.Failure? ==> |r.warnings| < |elements|
    decreases |elements|
  {
    if elements == [] then Success([], [])
    else
      var name := elements[|elements| - 1];
      match TranslateNameList(ir, specification, elements[..|elements| - 1])
      case Failure(e, warnings) => Failure(e, warnings)
      case Success(names, warnings) =>
        match ir.kindOf(name)
        case SimpleName => Success(names + [Name.SimpleName(name, ir.nameOf(name))], warnings)
        case Signature => Success(names, warnings + [SignatureNameNotImplemented])
        case Other(_) => Failure(UnknownNameKind(ir.kindOf(name), name, specification), warnings)
  }

  /** Every element of the name list is a simple name or a signature: none is of a kind without a translation rule. */
  ghost predicate AllKindsKnown(ir: Ir, elements: seq<Iir>)
  {
    forall i :: 0 <= i < |elements| ==> !ir.kindOf(elements[i]).Other?
  }

  /** The names the simple-name elements of a list stand for, in list order (a reference definition). */
  function SimpleNamesOf(ir: Ir, elements: seq<Iir>): seq<Name>
  {
    if elements == [] then []
    else
      var rest := SimpleNamesOf(ir, elements[1..]);
      if ir.kindOf(elements[0]).SimpleName? then [Name.SimpleName(elements[0], ir.nameOf(elements[0]))] + rest
      else rest
  }

  /** The number of signature elements in a list (a reference definition). */
  function SignatureCount(ir: Ir, elements: seq<Iir>): nat
  {
    if elements == [] then 0
    else (if ir.kindOf(elements[0]).Signature? then 1 else 0) + SignatureCount(ir, elements[1..])
  }

  /** `n` copies of the signature warning. */
  function SignatureWarnings(n: nat): (ws: seq<DomWarning>)
    ensures |ws| == n && forall i :: 0 <= i < n ==> ws[i] == SignatureNameNotImplemented
  {
    if n == 0 then [] else SignatureWarnings(n - 1) + [SignatureNameNotImplemented]
  }

  lemma {:induction false} SimpleNamesOfAppend(ir: Ir, a: seq<Iir>, b: seq<Iir>)
    ensures SimpleNamesOf(ir, a + b) == SimpleNamesOf(ir, a) + SimpleNamesOf(ir, b)
    ensures SignatureCount(ir, a + b) == SignatureCount(ir, a) + SignatureCount(ir, b)
    decreases |a|
  {
    if a == [] {
      assert a + b == b;
    } else {
      assert (a + b)[0] == a[0];
      assert (a + b)[1..] == a[1..] + b;
      SimpleNamesOfAppend(ir, a[1..], b);
    }
  }

  /**
   * The name list translates exactly when every element is a simple name or a
   * signature; then the names are those of the simple names in list order, and
   * there is one warning per signature.
   */
  lemma {:induction false} NameListResult(ir: Ir, specification: Iir, elements: seq<Iir>)
    ensures TranslateNameList(ir, specification, elements).Success? <==> AllKindsKnown(ir, elements)
    ensures AllKindsKnown(ir, elements) ==>
      TranslateNameList(ir, specification, elements)
        == Success(SimpleNamesOf(ir, elements), SignatureWarnings(SignatureCount(ir, elements)))
    decreases |elements|
  {
    if elements != [] {
      var init, name := elements[..|elements| - 1], elements[|elements| - 1];
      assert elements == init + [name];
      NameListResult(ir, specification, init);
      SimpleNamesOfAppend(ir, init, [name]);
      assert [name][1..] == [];
      if !ir.kindOf(name).Other? {
        assert AllKindsKnown(ir, elements) <==> AllKindsKnown(ir, init) by {
          assert forall i :: 0 <= i < |init| ==> init[i] == elements[i];
        }
        if ir.kindOf(name).SimpleName? {
          assert SimpleNamesOf(ir, [name]) == [Name.SimpleName(name, ir.nameOf(name))];
          assert SignatureCount(ir, [name]) == 0;
        } else {
          assert SimpleNamesOf(ir, [name]) == [];
          assert SignatureCount(ir, [name]) == 1;
          var n := SignatureCount(ir, init);
          assert SignatureWarnings(n + 1) == SignatureWarnings(n) + [SignatureNameNotImplemented];
          if AllKindsKnown(ir, elements) {
            assert TranslateNameList(ir, specification, init) == Success(SimpleNamesOf(ir, init), SignatureWarnings(n));
            assert TranslateNameList(ir, specification, elements) == Success(SimpleNamesOf(ir, init), SignatureWarnings(n) + [SignatureNameNotImplemented]);
            assert SimpleNamesOf(ir, elements) == SimpleNamesOf(ir, init);
            assert SignatureCount(ir, elements) == n + 1;
          }
        }
      } else {
        assert !AllKindsKnown(ir, elements);
      }
    }
  }

  /** A list of simple names only translates to one name per element, in order, without warnings. */
  lemma NameListOfSimpleNames(ir: Ir, specification: Iir, elements: seq<Iir>)
    requires forall i :: 0 <= i < |elements| ==> ir.kindOf(elements[i]).SimpleName?
    ensures var r := TranslateNameList(ir, specification, elements);
      && r.Success? && r.warnings == []
      && |r.value| == |elements|
      && forall i :: 0 <= i < |elements| ==> r.value[i] == Name.SimpleName(elements[i], ir.nameOf(elements[i]))
  {
    NameListResult(ir, specification, elements);
    SimpleNamesOfAllSimple(ir, elements);
  }

  lemma {:induction false} SimpleNamesOfAllSimple(ir: Ir, elements: seq<Iir>)
    requires forall i :: 0 <= i < |elements| ==> ir.kindOf(elements[i]).SimpleName?
    ensures SignatureCount(ir, elements) == 0
    ensures |SimpleNamesOf(ir, elements)| == |elements|
    ensures forall i :: 0 <= i < |elements| ==>
      SimpleNamesOf(ir, elements)[i] == Name.SimpleName(elements[i], ir.nameOf(elements[i]))
  {
    if elements != [] {
      SimpleNamesOfAllSimple(ir, elements[1..]);
      var rest := SimpleNamesOf(ir, elements[1..]);
      assert SimpleNamesOf(ir, elements) == [Name.SimpleName(elements[0], ir.nameOf(elements[0]))] + rest;
      forall i | 1 <= i < |elements|
        ensures SimpleNamesOf(ir, elements)[i] == Name.SimpleName(elements[i], ir.nameOf(elements[i]))
      {
        assert elements[1..][i - 1] == elements[i];
      }
    }
  }

  /** Inserting an element of known kind does not change whether all kinds are known. */
  lemma KindsKnownWithout(ir: Ir, before: seq<Iir>, element: Iir, after: seq<Iir>)
    requires !ir.kindOf(element).Other?
    ensures AllKindsKnown(ir, before + [element] + after) <==> AllKindsKnown(ir, before + after)
  {
    var withList, withoutList := before + [element] + after, before + after;
    if AllKindsKnown(ir, withoutList) {
      forall i | 0 <= i < |withList| ensures !ir.kindOf(withList[i]).Other? {
        if i < |before| {
          assert withList[i] == withoutList[i];
        } else if i > |before| {
          assert withList[i] == withoutList[i - 1];
        }
      }
    }
    if AllKindsKnown(ir, withList) {
      forall i | 0 <= i < |withoutList| ensures !ir.kindOf(withoutList[i]).Other? {
        if i < |before| {
          assert withoutList[i] == withList[i];
        } else {
          assert withoutList[i] == withList[i + 1];
        }
      }
    }
  }

  /**
   * A signature element adds exactly one warning and no name: the list with it
   * translates iff the list without it does, to the same names, with one more warning.
   */
  lemma SignatureAddsOneWarning(ir: Ir, specification: Iir, before: seq<Iir>, signature: Iir, after: seq<Iir>)
    requires ir.kindOf(signature).Signature?
    ensures var withIt := TranslateNameList(ir, specification, before + [signature] + after);
      var withoutIt := TranslateNameList(ir, specification, before + after);
      && (withIt.Success? <==> withoutIt.Success?)
      && (withIt.Success? ==>
            withIt.value == withoutIt.value && |withIt.warnings| == |withoutIt.warnings| + 1)
  {
    NameListResult(ir, specification, before + [signature] + after);
    NameListResult(ir, specification, before + after);
    KindsKnownWithout(ir, before, signature, after);
    SimpleNamesOfAppend(ir, before + [signature], after);
    SimpleNamesOfAppend(ir, before, [signature]);
    SimpleNamesOfAppend(ir, before, after);
    assert [signature][1..] == [];
    assert SimpleNamesOf(ir, [signature]) == [] && SignatureCount(ir, [signature]) == 1;
  }

  /**
   * The first element whose kind has no rule aborts the walk: the error names
   * that element and its kind, and only the warnings of the elements before it
   * were raised. No name list is produced.
   */
  lemma {:induction false} NameListFailsAtFirstUnknown(ir: Ir, specification: Iir, elements: seq<Iir>, k: nat)
    requires k < |elements| && ir.kindOf(elements[k]).Other?
    requires AllKindsKnown(ir, elements[..k])
    ensures TranslateNameList(ir, specification, elements)
      == Failure(UnknownNameKind(ir.kindOf(elements[k]), elements[k], specification),
                 SignatureWarnings(SignatureCount(ir, elements[..k])))
    decreases |elements|
  {
    var init := elements[..|elements| - 1];
    if k == |elements| - 1 {
      assert init == elements[..k];
      NameListResult(ir, specification, init);
    } else {
      assert init[..k] == elements[..k];
      NameListFailsAtFirstUnknown(ir, specification, init, k);
    }
  }

  // ---------------------------------------------------------------------------
  // Attribute specifications

  /**
   * What `AttributeSpecification.parse` computes, step by step: the attribute
   * name, the name list, the entity class, the expression; the first step that
   * fails decides the error.
   */
  function AttributeSpecificationOf(ir: Ir, attributeNode: Iir): (r: Parsed<AttributeSpecification>)
    ensures |r.warnings| <= |ir.entityNameList(attributeNode)|
    ensures r.Success? ==> |r.value.identifiers| + |r.warnings| == |ir.entityNameList(attributeNode)|
  {
    var designator := ir.attributeDesignator(attributeNode);
    match ir.translateName(designator)
    case None => Failure(NameTranslationFailed(designator), [])
    case Some(attributeName) =>
      var documentation := ir.documentationOf(attributeNode);
      match TranslateNameList(ir, attributeNode, ir.entityNameList(attributeNode))
      case Failure(e, warnings) => Failure(e, warnings)
      case Success(names, warnings) =>
        var token := ir.entityClass(attributeNode);
        match TokenTranslation(token)
        case None => Failure(UnknownEntityClassToken(token, attributeNode), warnings)
        case Some(entityClass) =>
          var expressionNode := ir.expression(attributeNode);
          match ir.translateExpression(expressionNode)
          case None => Failure(ExpressionTranslationFailed(expressionNode), warnings)
          case Some(expression) =>
            Success(AttributeSpecification(attributeNode, names, attributeName, entityClass,
                                           expression, documentation),
                    warnings)
  }

  /**
   * A specification translates exactly when the attribute name translates, every
   * element of the name list is a simple name or a signature, the entity-class
   * token is in the table, and the expression translates.
   */
  lemma SpecificationSucceedsIff(ir: Ir, attributeNode: Iir)
    ensures AttributeSpecificationOf(ir, attributeNode).Success? <==>
      && ir.translateName(ir.attributeDesignator(attributeNode)).Some?
      && AllKindsKnown(ir, ir.entityNameList(attributeNode))
      && TokenTranslation(ir.entityClass(attributeNode)).Some?
      && ir.translateExpression(ir.expression(attributeNode)).Some?
  {
    NameListResult(ir, attributeNode, ir.entityNameList(attributeNode));
  }

  /**
   * A translated specification carries exactly the collected names, the
   * translated attribute name, the class of the same name as the token, the
   * translated expression and the documentation, with one warning per signature.
   */
  lemma SpecificationFields(ir: Ir, attributeNode: Iir)
    requires AttributeSpecificationOf(ir, attributeNode).Success?
    ensures var r := AttributeSpecificationOf(ir, attributeNode);
      var elements := ir.entityNameList(attributeNode);
      var token := ir.entityClass(attributeNode);
      && r.value.node == attributeNode
      && r.value.identifiers == SimpleNamesOf(ir, elements)
      && Some(r.value.attribute) == ir.translateName(ir.attributeDesignator(attributeNode))
      && TokenTranslation(token) == Some(r.value.entityClass)
      && ClassName(r.value.entityClass) == TokenName(token)
      && Some(r.value.expression) == ir.translateExpression(ir.expression(attributeNode))
      && r.value.documentation == ir.documentationOf(attributeNode)
      && r.warnings == SignatureWarnings(SignatureCount(ir, elements))
  {
    SpecificationSucceedsIff(ir, attributeNode);
    NameListResult(ir, attributeNode, ir.entityNameList(attributeNode));
    TokenTranslationKeepsNames();
  }

  /** An entity-class token outside the table is an error, never a default class. */
  lemma UnmappedEntityClassFails(ir: Ir, attributeNode: Iir)
    requires ir.translateName(ir.attributeDesignator(attributeNode)).Some?
    requires AllKindsKnown(ir, ir.entityNameList(attributeNode))
    requires TokenTranslation(ir.entityClass(attributeNode)).None?
    ensures AttributeSpecificationOf(ir, attributeNode)
      == Failure(UnknownEntityClassToken(ir.entityClass(attributeNode), attributeNode),
                 SignatureWarnings(SignatureCount(ir, ir.entityNameList(attributeNode))))
  {
    NameListResult(ir, attributeNode, ir.entityNameList(attributeNode));
  }

  /** `View` has no entry in the table, so a specification for the `view` entity class fails. */
  lemma ViewEntityClassFails(ir: Ir, attributeNode: Iir)
    requires ir.translateName(ir.attributeDesignator(attributeNode)).Some?
    requires AllKindsKnown(ir, ir.entityNameList(attributeNode))
    requires ir.entityClass(attributeNode) == Tok.View
    ensures AttributeSpecificationOf(ir, attributeNode).Failure?
    ensures AttributeSpecificationOf(ir, attributeNode).error == UnknownEntityClassToken(Tok.View, attributeNode)
  {
    UnmappedEntityClassFails(ir, attributeNode);
  }

  /**
   * The name list is walked before the entity class is looked up: an element of
   * unknown kind is the error reported, whatever the entity-class token and the
   * expression are.
   */
  lemma NameKindCheckedBeforeEntityClass(ir: Ir, attributeNode: Iir, k: nat)
    requires ir.translateName(ir.attributeDesignator(attributeNode)).Some?
    requires var elements := ir.entityNameList(attributeNode);
      k < |elements| && ir.kindOf(elements[k]).Other? && AllKindsKnown(ir, elements[..k])
    ensures var elements := ir.entityNameList(attributeNode);
      AttributeSpecificationOf(ir, attributeNode)
        == Failure(UnknownNameKind(ir.kindOf(elements[k]), elements[k], attributeNode),
                   SignatureWarnings(SignatureCount(ir, elements[..k])))
  {
    NameListFailsAtFirstUnknown(ir, attributeNode, ir.entityNameList(attributeNode), k);
  }

  /** The attribute name is translated first: when that fails, nothing else is looked at and no warning is raised. */
  lemma AttributeNameTranslatedFirst(ir: Ir, attributeNode: Iir)
    requires ir.translateName(ir.attributeDesignator(attributeNode)).None?
    ensures AttributeSpecificationOf(ir, attributeNode)
      == Failure(NameTranslationFailed(ir.attributeDesignator(attributeNode)), [])
  {
  }

  /** `AttributeSpecification.parse`, with its loop over the entity name list. */
  method ParseAttributeSpecification(ir: Ir, attributeNode: Iir) returns (r: Parsed<AttributeSpecification>)
    ensures r == AttributeSpecificationOf(ir, attributeNode)
  {
    var attributeDesignator := ir.attributeDesignator(attributeNode);
    var attributeName := ir.translateName(attributeDesignator);
    if attributeName.None? {
      return Failure(NameTranslationFailed(attributeDesignator), []);
    }
    var documentation := ir.documentationOf(attributeNode);

    var names: seq<Name> := [];
    var warnings: seq<DomWarning> := [];
    var entityNameList := ir.entityNameList(attributeNode);
    for i := 0 to |entityNameList|
      invariant TranslateNameList(ir, attributeNode, entityNameList[..i]) == Success(names, warnings)
    {
      var name := entityNameList[i];
      assert entityNameList[..i + 1][..i] == entityNameList[..i];
      var nameKind := ir.kindOf(name);
      match nameKind {
        case SimpleName =>
          names := names + [Name.SimpleName(name, ir.nameOf(name))];
        case Signature =>
          warnings := warnings + [SignatureNameNotImplemented];
        case Other(_) =>
          NameListResult(ir, attributeNode, entityNameList[..i]);
          NameListResult(ir, attributeNode, entityNameList);
          NameListFailsAtFirstUnknown(ir, attributeNode, entityNameList, i);
          return Failure(UnknownNameKind(nameKind, name, attributeNode), warnings);
      }
    }
    assert entityNameList[..|entityNameList|] == entityNameList;

    var entityClassToken := ir.entityClass(attributeNode);
    var entityClass := TokenTranslation(entityClassToken);
    if entityClass.None? {
      return Failure(UnknownEntityClassToken(entityClassToken, attributeNode), warnings);
    }

    var expressionNode := ir.expression(attributeNode);
    var expression := ir.translateExpression(expressionNode);
    if expression.None? {
      return Failure(ExpressionTranslationFailed(expressionNode), warnings);
    }

    r := Success(AttributeSpecification(attributeNode, names, attributeName.value, entityClass.value,
                                        expression.value, documentation),
                 warnings);
  }

  // ---------------------------------------------------------------------------
  // Worked example: `attribute foo of <elements> : signal is <value>;`
  // Node 1 is the specification, 2 the designator `foo`, 3 and 4 the simple
  // names `a` and `b`, 5 the value expression, 6 a signature; any other node is
  // of a kind without a translation rule.

  function ExampleIr(value: Expression, elements: seq<Iir>): Ir
  {
    Ir(
      (n: Iir) => if n == 3 || n == 4 then IirKind.SimpleName else if n == 6 then IirKind.Signature else IirKind.Other(n),
      (n: Iir) => if n == 2 then "foo" else if n == 3 then "a" else if n == 4 then "b" else "",
      (n: Iir) => None,
      (n: Iir) => n,
      (n: Iir) => 2,
      (n: Iir) => elements,
      (n: Iir) => Tok.Signal,
      (n: Iir) => 5,
      (n: Iir) => if n == 2 then Some(Name.SimpleName(2, "foo")) else None,
      (n: Iir) => if n == 5 then Some(value) else None)
  }

  /** `foo of a, b : signal` translates to the names `a`, `b` in order, class `Signal`, and the value. */
  lemma ExampleSimpleNames(value: Expression)
    ensures AttributeSpecificationOf(ExampleIr(value, [3, 4]), 1)
      == Success(AttributeSpecification(1, [Name.SimpleName(3, "a"), Name.SimpleName(4, "b")],
                                        Name.SimpleName(2, "foo"), EntityClass.Signal, value, None),
                 [])
  {
    var ir := ExampleIr(value, [3, 4]);
    NameListOfSimpleNames(ir, 1, [3, 4]);
    var names := TranslateNameList(ir, 1, [3, 4]).value;
    assert names[0] == Name.SimpleName(3, "a") && names[1] == Name.SimpleName(4, "b");
    assert names == [Name.SimpleName(3, "a"), Name.SimpleName(4, "b")];
  }

  /** A signature between `a` and `b` is skipped with one warning. */
  lemma ExampleSignatureSkipped(value: Expression)
    ensures AttributeSpecificationOf(ExampleIr(value, [3, 6, 4]), 1)
      == Success(AttributeSpecification(1, [Name.SimpleName(3, "a"), Name.SimpleName(4, "b")],
                                        Name.SimpleName(2, "foo"), EntityClass.Signal, value, None),
                 [SignatureNameNotImplemented])
  {
    assert [3, 6, 4][..2] == [3, 6];
    assert [3, 6][..1] == [3];
    assert [3][..0] == [];
    var ir := ExampleIr(value, [3, 6, 4]);
    var a, b := Name.SimpleName(3, "a"), Name.SimpleName(4, "b");
    assert [] + [a] == [a] && [] + [SignatureNameNotImplemented] == [SignatureNameNotImplemented];
    assert TranslateNameList(ir, 1, [3]) == Success([a], []);
    assert TranslateNameList(ir, 1, [3, 6]) == Success([a], [SignatureNameNotImplemented]);
    assert [a] + [b] == [a, b];
  }

  /** An element of another kind (node 7) aborts the translation: no specification is produced. */
  lemma ExampleUnknownKind(value: Expression)
    ensures AttributeSpecificationOf(ExampleIr(value, [3, 7, 4]), 1)
      == Failure(UnknownNameKind(IirKind.Other(7), 7, 1), [])
  {
    assert [3, 7, 4][..2] == [3, 7];
    assert [3, 7][..1] == [3];
    assert [3][..0] == [];
  }
}
