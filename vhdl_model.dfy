/**
 * The typed object model the DOM builds (the pyVHDLModel classes together with
 * the pyGHDL DOM subclasses that remember their IR node).
 */
module VhdlModel {
  import opened Options
  import opened Libghdl

  /** The entity classes an attribute specification can target (section 7.2 of IEEE Std 1076-2008). */
  datatype EntityClass =
    | Entity | Architecture | Configuration | Procedure | Function | Package
    | Type | Subtype | Constant | Signal | Variable | Component | Label
    | Literal | Units | Group | File | Property | Sequence | Others

  /**
   * A name reference. The DOM builds `SimpleName` itself; names produced by the
   * separate name-translation subsystem may be of other forms, kept opaque.
   */
  datatype Name = SimpleName(node: Iir, identifier: string) | OtherName(node: Iir, form: nat)

  /** A reference to a subtype by a simple name (`SimpleSubtypeSymbol`). */
  datatype SubtypeSymbol = SimpleSubtypeSymbol(node: Iir, name: Name)

  /** A DOM expression; built by the separate expression-translation subsystem. */
  type Expression(==)

  /** An attribute declaration (section 6.7 of IEEE Std 1076-2008). */
  datatype Attribute = Attribute(
    node: Iir,
    identifier: string,
    subtype: SubtypeSymbol,
    documentation: Option<string>)

  /** An attribute specification (section 7.2 of IEEE Std 1076-2008). */
  datatype AttributeSpecification = AttributeSpecification(
    node: Iir,
    identifiers: seq<Name>,
    attribute: Name,
    entityClass: EntityClass,
    expression: Expression,
    documentation: Option<string>)
}
