# GHDL attribute translation and warning-identifier tables, in Dafny

This project models two small parts of GHDL, the VHDL analyser and simulator.

**The DOM translation of attributes** (`pyGHDL/dom/Attribute.py`). The
Python document object model walks libghdl's IR and builds objects of the
`pyVHDLModel` object model. It has two translations:

- An attribute *declaration* (`attribute foo : T;`) becomes an `Attribute`.
  The object holds the declaration's identifier, its documentation and a
  subtype symbol for the type mark.
- An attribute *specification* (`attribute foo of a, b : signal is expr;`)
  becomes an `AttributeSpecification`. The translation walks the entity name
  list:
  - a simple name is kept;
  - a signature raises a "not implemented" warning and is skipped;
  - any other kind of name raises an exception.

  The entity-class keyword token is then mapped to an `EntityClass` through a
  fixed table of 20 entries; a token without an entry raises an exception.
  Finally the value expression is translated.

Module `DomAttribute` models both translations:

- `AttributeSpecificationOf` is the specification function.
- `ParseAttributeSpecification` is the method with the name-list loop. It is
  proved equal to `AttributeSpecificationOf`.
- The token table, the name-list walk and the whole translation each have
  lemmas. The lemmas say:
  - exactly when the translation succeeds;
  - what the result contains;
  - which error ends it and in which order the checks run.

**The warning-identifier tables** (`src/errorout_def.rs`). This file is the
Rust side of GHDL's message layer. It declares:

- the message-id constants (`MSGID_NOTE` … `MSGID_FATAL`);
- the `#[repr(u8)]` enum `Warnid` of the 38 warning identifiers;
- the parallel arrays `VALUES` and `IMAGES`;
- `WARNID_USIZE`.

Modules `ErrorOutDef` and `ErrorOutFacts` model these declarations. They prove
the following:

- The message ids are ordered.
- The warning ids fill exactly the range between `MSGID_NOTE` and
  `MSGID_WARNING`.
- `VALUES` lists the variants in declaration order.
- Each image is the lower-case variant name.
- The images are pairwise distinct and read back to their variant.

In these points the model follows `Attribute.py` as written:

- the subtype of an `Attribute` is a `SimpleSubtypeSymbol` whose name is a
  `SimpleName` on the type-mark node;
- the documentation is read right after the attribute name, not last;
- the entity-class table has no `View` entry, so `view` is an error;
- warnings raised before an exception stay collected.

Supporting modules:

- `Options` holds the `Option` type.
- `Libghdl` holds IR handles, node kinds and tokens.
- `VhdlModel` holds the object-model records (`Name`, `SubtypeSymbol`,
  `Attribute`, `AttributeSpecification`, `EntityClass`).

## Model

| member | source | states |
|---|---|---|
| DomAttribute.ParseAttribute | pyGHDL/dom/Attribute.py:60-68 | The attribute keeps the declaration node, its identifier and its documentation. Its subtype is a simple subtype symbol on the type-mark node whose name is a simple name of that same node, spelled as that node's identifier. |
| DomAttribute.TokenTranslation | pyGHDL/dom/Attribute.py:71-93 | A token has an entity class exactly when it is one of the 20 keyword tokens of the table (both directions). `View` is commented out and has none. |
| DomAttribute.TokenTranslationKeepsNames | pyGHDL/dom/Attribute.py:71-93 | Every table entry maps a token to the entity class of the same name. |
| DomAttribute.TokenTranslationInjective | pyGHDL/dom/Attribute.py:71-93 | No two tokens map to the same entity class. |
| DomAttribute.TranslateNameList | pyGHDL/dom/Attribute.py:116-128 | Walking the name list yields one name or one warning per element on success. On failure it has raised fewer warnings than there are elements. |
| DomAttribute.NameListResult | pyGHDL/dom/Attribute.py:116-128 | The walk succeeds iff every element is a simple name or a signature (both directions). It then yields the simple names in list order, plus one warning per signature. |
| DomAttribute.NameListOfSimpleNames | pyGHDL/dom/Attribute.py:118-121 | A list of simple names only translates without warnings, one name per element in order, each carrying its node's identifier. |
| DomAttribute.SignatureAddsOneWarning | pyGHDL/dom/Attribute.py:122-123 | Inserting a signature anywhere changes neither the outcome nor the names, and adds exactly one warning. |
| DomAttribute.NameListFailsAtFirstUnknown | pyGHDL/dom/Attribute.py:118-128 | The first element of another kind aborts the walk with an unknown-name-kind error naming that element, its kind and the specification. The warnings raised before it are kept. |
| DomAttribute.AttributeSpecificationOf | pyGHDL/dom/Attribute.py:110-141 | The translation never raises more warnings than the name list has elements. On success, each element gives either one identifier or one warning. The lemmas below state when it succeeds, what it holds and which error ends it. |
| DomAttribute.SpecificationSucceedsIff | pyGHDL/dom/Attribute.py:110-141 | A specification translates iff all four hold: the attribute name translates, every name-list element has a known kind, the token is in the table, and the expression translates. |
| DomAttribute.SpecificationFields | pyGHDL/dom/Attribute.py:110-141 | A translated specification holds: the node, the collected simple names, the translated attribute name, the entity class the token maps to (same name as the token), the translated expression and the documentation. It carries one warning per signature. |
| DomAttribute.UnmappedEntityClassFails | pyGHDL/dom/Attribute.py:130-137 | A token outside the table gives an unknown-token error naming the token and the specification, never a default class. |
| DomAttribute.ViewEntityClassFails | pyGHDL/dom/Attribute.py:130-137 | A specification for the `view` entity class fails with an unknown-token error. |
| DomAttribute.NameKindCheckedBeforeEntityClass | pyGHDL/dom/Attribute.py:116-137 | An unknown name kind is the error reported, whatever the entity-class token and the expression are. The name list is checked before the class lookup. |
| DomAttribute.AttributeNameTranslatedFirst | pyGHDL/dom/Attribute.py:112-113 | When the attribute name does not translate, the translation fails at once, with no warning. |
| DomAttribute.ParseAttributeSpecification | pyGHDL/dom/Attribute.py:110-141 | The method with the name-list loop returns exactly `AttributeSpecificationOf`, so every lemma above holds of it. |
| DomAttribute.ExampleSimpleNames | pyGHDL/dom/Attribute.py:116-141 | `attribute foo of a, b : signal is v` translates to names `a`, `b` in order, class `Signal` and value `v`, with no warning. |
| DomAttribute.ExampleSignatureSkipped | pyGHDL/dom/Attribute.py:122-123 | A signature between `a` and `b` is dropped with exactly one warning. |
| DomAttribute.ExampleUnknownKind | pyGHDL/dom/Attribute.py:124-128 | An element of another kind yields the unknown-name-kind error for that element. |
| ErrorOutFacts.MessageIdsOrdered | src/errorout_def.rs:2-6 | `MSGID_NOTE < MSGID_FIRST_WARNID < MSGID_WARNING < MSGID_ERROR < MSGID_FATAL`. |
| ErrorOutFacts.WarningIdsFillTheirRange | src/errorout_def.rs:2-6 | The warning ids start right after `MSGID_NOTE`. There are `WARNID_USIZE` of them, ending right before `MSGID_WARNING`. |
| ErrorOutFacts.TableLengths | src/errorout_def.rs:51-133 | `VALUES` and `IMAGES` both have `WARNID_USIZE` entries. |
| ErrorOutDef.Discriminant | src/errorout_def.rs:8-48 | The `u8` discriminant of every variant is below `WARNID_USIZE`. With `ValuesIndexedByDiscriminant` it is the variant's position in `VALUES`, so distinct variants have distinct discriminants. |
| ErrorOutFacts.ValuesAreDeclarationOrder | src/errorout_def.rs:8-90 | `VALUES[i]` is the variant whose `u8` discriminant is `i`, for every index. |
| ErrorOutFacts.ValuesIndexedByDiscriminant | src/errorout_def.rs:8-90 | Every variant appears in `VALUES`, at the index of its discriminant. |
| ErrorOutDef.Msgid | src/errorout_def.rs:2-48 | Every warning's message id lies in `[MSGID_FIRST_WARNID, MSGID_WARNING)`. |
| ErrorOutFacts.MsgidInjective | src/errorout_def.rs:2-48 | Distinct warnings have distinct message ids. |
| ErrorOutFacts.MsgidSurjective | src/errorout_def.rs:2-90 | Every id in the warning range is the message id of the `VALUES` entry at that offset. |
| ErrorOutFacts.ImageIsLowercaseName | src/errorout_def.rs:9-131 | The image of every variant is its name with ASCII upper case lowered. |
| ErrorOutFacts.ImagesAreLowercaseNames | src/errorout_def.rs:51-131 | `IMAGES[i]` is the lower-cased name of `VALUES[i]`, for every index. |
| ErrorOutFacts.ImagesReadBack | src/errorout_def.rs:51-131 | Looking up `IMAGES[i]` by name gives back `VALUES[i]`, for every index. |
| ErrorOutFacts.ImageRoundTrip | src/errorout_def.rs:92-131 | Looking up a variant's image gives back that variant. |
| ErrorOutFacts.FromImageOnlyOnImages | src/errorout_def.rs:92-131 | The name lookup accepts only strings that are images. |
| ErrorOutFacts.FromImageInvertsImage | src/errorout_def.rs:92-131 | A string looks up to `w` iff it is the image of `w` (both directions). |
| ErrorOutFacts.FromImageDefinedOnImages | src/errorout_def.rs:92-131 | A string names some warning iff it occurs in `IMAGES`. |
| ErrorOutFacts.ImagesDistinct | src/errorout_def.rs:92-131 | Entries of `IMAGES` at distinct indices differ, so no name is ambiguous. |

## Left out

- The libghdl accessors (`nodes.Get_*`, `GetIirKindOfNode`, `GetNameOfNode`, `GetDocumentationOfNode`, `utils.flist_iter`) are foreign calls into the analyser. They are the fields of an `Ir` value passed as a parameter, and every lemma holds for every such value.
- `GetName` and `GetExpressionFromNode` belong to the name and expression translators, which are not part of this model. They are fields of `Ir` returning an `Option`; `None` stands for the exception they raise.
- `Position.parse` and the text of the `DOMException` and warning messages are left out. An error keeps its kind, the node and the token or name kind.
- `WarningCollector` is a process-wide side channel. It is a list of warnings returned with the result. A failure also carries the warnings raised before it, because the collector keeps them after the exception.
- The `pyVHDLModel` constructors and `DOMMixin.__init__` are records: a constructor stores its arguments and the node.
- `_TOKEN_TRANSLATION` is a Python dict. `TokenTranslation` models it as a total function returning `Option`, where `None` is the `KeyError`.
- `EntityClass` lists the 20 classes the table produces. The model's enumeration leaves out `View`, which no entry yields.
- `Expression` values are opaque here. The expression translator that builds them is not part of this model.
- ErrorOutDef.FromImage: the Rust file declares no lookup by name. This inverse of `IMAGES` is stated only to prove that the images are unambiguous.
- ErrorOutDef.Msgid: the Rust file declares no function from warning to message id. The map `MSGID_FIRST_WARNID + discriminant` is what the constants and `WARNID_USIZE` lay out; the rest of the Rust message layer is not part of this model.
- `#![allow(dead_code)]` and the `@export` decorators have no behaviour to model.
