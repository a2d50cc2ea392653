/**
 * The part of libghdl's VHDL front end that the attribute translation reads:
 * node handles, the node kinds it tells apart and the lexer tokens that name
 * an entity class. The accessors themselves are parameters of the translation
 * (see `DomAttribute.Ir`).
 */
module Libghdl {
  /** A node of the IR; libghdl hands nodes out as integer handles. */
  type Iir = nat

  /**
   * The kind of an element of an entity name list. Only simple names and
   * signatures are told apart; every other `Iir_Kind` is kept by its tag.
   */
  datatype IirKind = SimpleName | Signature | Other(tag: nat)

  /**
   * Lexer tokens (`Tok`) as they appear in the entity-class position of an
   * attribute specification: the twenty entity-class keywords, `View`
   * (VHDL-2019), and any other token of the lexer, kept by its code.
   */
  datatype Tok =
    | Entity | Architecture | Configuration | Procedure | Function | Package
    | Type | Subtype | Constant | Signal | Variable | Component | Label
    | Literal | Units | Group | File | Property | Sequence | Others
    | View
    | OtherToken(code: nat)
}
