/**
 * The warning-identifier tables of GHDL's Rust message layer (src/errorout_def.rs):
 * the message-id constants, the `Warnid` enum with its `u8` representation,
 * and the parallel `VALUES` and `IMAGES` arrays.
 */
module ErrorOutDef {
  import opened Options

  /** Rust's `u8`: every constant below is declared with this type. */
  newtype u8 = x: int | 0 <= x < 0x100

  const MsgidNote: u8 := 0
  const MsgidFirstWarnid: u8 := 1
  const MsgidWarning: u8 := 39
  const MsgidError: u8 := 40
  const MsgidFatal: u8 := 41

  /** The warning identifiers, in declaration order (the enum is `#[repr(u8)]`). */
  datatype Warnid
    = Library
    | DeprecatedOption
    | UnexpectedOption
    | MissingXref
    | DefaultBinding
    | Binding
    | Port
    | ReservedWord
    | Pragma
    | NestedComment
    | Parenthesis
    | VitalGeneric
    | DelayedChecks
    | Sensitivity
    | Body
    | Specs
    | Universal
    | PortBounds
    | RuntimeError
    | DeltaCycle
    | MissingWait
    | Shared
    | Hide
    | Unused
    | Nowrite
    | LogicLoop
    | Others
    | Pure
    | AnalyzeAssert
    | Attribute
    | Useless
    | MissingAssoc
    | OpenAssoc
    | Conformance
    | UnkeptAttribute
    | UnhandledAttribute
    | Static
    | Elaboration

  /** `WARNID_USIZE`, the declared length of both arrays. */
  const WarnidUsize: nat := 38

  /** `Warnid::VALUES`. */
  const Values: seq<Warnid> := [
      Library, DeprecatedOption, UnexpectedOption, MissingXref, DefaultBinding, Binding, Port,
      ReservedWord, Pragma, NestedComment, Parenthesis, VitalGeneric, DelayedChecks,
      Sensitivity, Body, Specs, Universal, PortBounds, RuntimeError, DeltaCycle, MissingWait,
      Shared, Hide, Unused, Nowrite, LogicLoop, Others, Pure, AnalyzeAssert, Attribute,
      Useless, MissingAssoc, OpenAssoc, Conformance, UnkeptAttribute, UnhandledAttribute,
      Static, Elaboration
    ]

  /** `Warnid::IMAGES`: the name under which each warning is known to users. */
  const Images: seq<string> := [
      "library", "deprecatedoption", "unexpectedoption", "missingxref", "defaultbinding",
      "binding", "port", "reservedword", "pragma", "nestedcomment", "parenthesis",
      "vitalgeneric", "delayedchecks", "sensitivity", "body", "specs", "universal",
      "portbounds", "runtimeerror", "deltacycle", "missingwait", "shared", "hide", "unused",
      "nowrite", "logicloop", "others", "pure", "analyzeassert", "attribute", "useless",
      "missingassoc", "openassoc", "conformance", "unkeptattribute", "unhandledattribute",
      "static", "elaboration"
    ]

  /** The `u8` discriminant Rust gives a fieldless `#[repr(u8)]` variant: its position in the declaration. */
  function Discriminant(w: Warnid): (d: u8)
    ensures d as int < WarnidUsize
  {
    match w
    case Library => 0
    case DeprecatedOption => 1
    case UnexpectedOption => 2
    case MissingXref => 3
    case DefaultBinding => 4
    case Binding => 5
    case Port => 6
    case ReservedWord => 7
    case Pragma => 8
    case NestedComment => 9
    case Parenthesis => 10
    case VitalGeneric => 11
    case DelayedChecks => 12
    case Sensitivity => 13
    case Body => 14
    case Specs => 15
    case Universal => 16
    case PortBounds => 17
    case RuntimeError => 18
    case DeltaCycle => 19
    case MissingWait => 20
    case Shared => 21
    case Hide => 22
    case Unused => 23
    case Nowrite => 24
    case LogicLoop => 25
    case Others => 26
    case Pure => 27
    case AnalyzeAssert => 28
    case Attribute => 29
    case Useless => 30
    case MissingAssoc => 31
    case OpenAssoc => 32
    case Conformance => 33
    case UnkeptAttribute => 34
    case UnhandledAttribute => 35
    case Static => 36
    case Elaboration => 37
  }

  /** The identifier of the variant as written in the enum declaration. */
  function VariantName(w: Warnid): string
  {
    match w
    case Library => "Library"
    case DeprecatedOption => "DeprecatedOption"
    case UnexpectedOption => "UnexpectedOption"
    case MissingXref => "MissingXref"
    case DefaultBinding => "DefaultBinding"
    case Binding => "Binding"
    case Port => "Port"
    case ReservedWord => "ReservedWord"
    case Pragma => "Pragma"
    case NestedComment => "NestedComment"
    case Parenthesis => "Parenthesis"
    case VitalGeneric => "VitalGeneric"
    case DelayedChecks => "DelayedChecks"
    case Sensitivity => "Sensitivity"
    case Body => "Body"
    case Specs => "Specs"
    case Universal => "Universal"
    case PortBounds => "PortBounds"
    case RuntimeError => "RuntimeError"
    case DeltaCycle => "DeltaCycle"
    case MissingWait => "MissingWait"
    case Shared => "Shared"
    case Hide => "Hide"
    case Unused => "Unused"
    case Nowrite => "Nowrite"
    case LogicLoop => "LogicLoop"
    case Others => "Others"
    case Pure => "Pure"
    case AnalyzeAssert => "AnalyzeAssert"
    case Attribute => "Attribute"
    case Useless => "Useless"
    case MissingAssoc => "MissingAssoc"
    case OpenAssoc => "OpenAssoc"
    case Conformance => "Conformance"
    case UnkeptAttribute => "UnkeptAttribute"
    case UnhandledAttribute => "UnhandledAttribute"
    case Static => "Static"
    case Elaboration => "Elaboration"
  }

  /** ASCII lower-casing of one character. */
  function LowerChar(c: char): char
  {
    if 'A' <= c <= 'Z' then (c as int - 'A' as int + 'a' as int) as char else c
  }

  /** ASCII lower-casing of a string, character by character. */
  function ToLower(s: string): string
  {
    seq(|s|, i requires 0 <= i < |s| => LowerChar(s[i]))
  }

  /** The image of a warning: the entry of `IMAGES` at the variant's discriminant. */
  function Image(w: Warnid): string
  {
    Images[Discriminant(w)]
  }

  /** The message id a warning is reported under: the warning ids follow `MSGID_FIRST_WARNID`. */
  function Msgid(w: Warnid): (m: u8)
    ensures MsgidFirstWarnid <= m < MsgidWarning
  {
    MsgidFirstWarnid + Discriminant(w)
  }

  /** The inverse of `Image`: the warning a user-supplied name denotes, if any. */
  function FromImage(s: string): Option<Warnid>
  {
    match s
      case "library" => Some(Library)
      case "deprecatedoption" => Some(DeprecatedOption)
      case "unexpectedoption" => Some(UnexpectedOption)
      case "missingxref" => Some(MissingXref)
      case "defaultbinding" => Some(DefaultBinding)
      case "binding" => Some(Binding)
      case "port" => Some(Port)
      case "reservedword" => Some(ReservedWord)
      case "pragma" => Some(Pragma)
      case "nestedcomment" => Some(NestedComment)
      case "parenthesis" => Some(Parenthesis)
      case "vitalgeneric" => Some(VitalGeneric)
      case "delayedchecks" => Some(DelayedChecks)
      case "sensitivity" => Some(Sensitivity)
      case "body" => Some(Body)
      case "specs" => Some(Specs)
      case "universal" => Some(Universal)
      case "portbounds" => Some(PortBounds)
      case "runtimeerror" => Some(RuntimeError)
      case "deltacycle" => Some(DeltaCycle)
      case "missingwait" => Some(MissingWait)
      case "shared" => Some(Shared)
      case "hide" => Some(Hide)
      case "unused" => Some(Unused)
      case "nowrite" => Some(Nowrite)
      case "logicloop" => Some(LogicLoop)
      case "others" => Some(Others)
      case "pure" => Some(Pure)
      case "analyzeassert" => Some(AnalyzeAssert)
      case "attribute" => Some(Attribute)
      case "useless" => Some(Useless)
      case "missingassoc" => Some(MissingAssoc)
      case "openassoc" => Some(OpenAssoc)
      case "conformance" => Some(Conformance)
      case "unkeptattribute" => Some(UnkeptAttribute)
      case "unhandledattribute" => Some(UnhandledAttribute)
      case "static" => Some(Static)
      case "elaboration" => Some(Elaboration)
      case _ => None
  }
}

/** Facts about the warning-identifier tables of `ErrorOutDef`. */
module ErrorOutFacts {
  import opened Options
  import opened ErrorOutDef

  /** The message ids are strictly ordered, note first and fatal last. */
  lemma MessageIdsOrdered()
    ensures MsgidNote < MsgidFirstWarnid < MsgidWarning < MsgidError < MsgidFatal
  {
  }

  /** The warning ids fill the gap between `MSGID_NOTE` and `MSGID_WARNING` exactly. */
  lemma WarningIdsFillTheirRange()
    ensures MsgidNote as int + 1 == MsgidFirstWarnid as int
    ensures MsgidFirstWarnid as int + WarnidUsize == MsgidWarning as int
  {
  }

  /** Both arrays have the length `WARNID_USIZE` declares. */
  lemma TableLengths()
    ensures |Values| == |Images| == WarnidUsize
  {
  }

  // The table facts below are proved over groups of entries so that each proof stays small.

  /** Part of `ValuesAreDeclarationOrder`: entries 0 to 9 of `VALUES`. */
  lemma DeclarationOrder0()
    ensures forall i :: 0 <= i < 10 ==> Discriminant(Values[i]) as int == i
  {
  }

  /** Part of `ValuesAreDeclarationOrder`: entries 10 to 18 of `VALUES`. */
  lemma DeclarationOrder1()
    ensures forall i :: 10 <= i < 19 ==> Discriminant(Values[i]) as int == i
  {
  }

  /** Part of `ValuesAreDeclarationOrder`: entries 19 to 28 of `VALUES`. */
  lemma DeclarationOrder2()
    ensures forall i :: 19 <= i < 29 ==> Discriminant(Values[i]) as int == i
  {
  }

  /** Part of `ValuesAreDeclarationOrder`: entries 29 to 37 of `VALUES`. */
  lemma DeclarationOrder3()
    ensures forall i :: 29 <= i < 38 ==> Discriminant(Values[i]) as int == i
  {
  }

  /** `VALUES[i]` is the i-th declared variant: its `u8` discriminant is `i`. */
  lemma ValuesAreDeclarationOrder()
    ensures |Values| == WarnidUsize
    ensures forall i :: 0 <= i < |Values| ==> Discriminant(Values[i]) as int == i
  {
    DeclarationOrder0();
    DeclarationOrder1();
    DeclarationOrder2();
    DeclarationOrder3();
  }

  /** Every variant sits in `VALUES` at the index of its discriminant. */
  lemma {:induction false} ValuesIndexedByDiscriminant(w: Warnid)
    ensures Discriminant(w) as int < |Values| && Values[Discriminant(w)] == w
  {
    match w
      case Library =>
      case DeprecatedOption =>
      case UnexpectedOption =>
      case MissingXref =>
      case DefaultBinding =>
      case Binding =>
      case Port =>
      case ReservedWord =>
      case Pragma =>
      case NestedComment =>
      case Parenthesis =>
      case VitalGeneric =>
      case DelayedChecks =>
      case Sensitivity =>
      case Body =>
      case Specs =>
      case Universal =>
      case PortBounds =>
      case RuntimeError =>
      case DeltaCycle =>
      case MissingWait =>
      case Shared =>
      case Hide =>
      case Unused =>
      case Nowrite =>
      case LogicLoop =>
      case Others =>
      case Pure =>
      case AnalyzeAssert =>
      case Attribute =>
      case Useless =>
      case MissingAssoc =>
      case OpenAssoc =>
      case Conformance =>
      case UnkeptAttribute =>
      case UnhandledAttribute =>
      case Static =>
      case Elaboration =>
  }

  /** Distinct variants have distinct discriminants, hence distinct message ids. */
  lemma MsgidInjective(v: Warnid, w: Warnid)
    ensures Msgid(v) == Msgid(w) ==> v == w
  {
    ValuesIndexedByDiscriminant(v);
    ValuesIndexedByDiscriminant(w);
  }

  /** Every message id from `MSGID_FIRST_WARNID` up to `MSGID_WARNING` (excluded) is some warning's id. */
  lemma MsgidSurjective(m: u8)
    requires MsgidFirstWarnid <= m < MsgidWarning
    ensures Msgid(Values[m - MsgidFirstWarnid]) == m
  {
    ValuesAreDeclarationOrder();
  }

  /** Part of `ImageIsLowercaseName`: the variants with discriminant 0 to 2. */
  lemma LowercaseImages0()
    ensures forall w :: 0 <= Discriminant(w) < 3 ==> Image(w) == ToLower(VariantName(w))
  {
  }

  /** Part of `ImageIsLowercaseName`: the variants with discriminant 3 to 5. */
  lemma LowercaseImages1()
    ensures forall w :: 3 <= Discriminant(w) < 6 ==> Image(w) == ToLower(VariantName(w))
  {
  }

  /** Part of `ImageIsLowercaseName`: the variants with discriminant 6 to 8. */
  lemma LowercaseImages2()
    ensures forall w :: 6 <= Discriminant(w) < 9 ==> Image(w) == ToLower(VariantName(w))
  {
  }

  /** Part of `ImageIsLowercaseName`: the variants with discriminant 9 to 11. */
  lemma LowercaseImages3()
    ensures forall w :: 9 <= Discriminant(w) < 12 ==> Image(w) == ToLower(VariantName(w))
  {
  }

  /** Part of `ImageIsLowercaseName`: the variants with discriminant 12 to 14. */
  lemma LowercaseImages4()
    ensures forall w :: 12 <= Discriminant(w) < 15 ==> Image(w) == ToLower(VariantName(w))
  {
  }

  /** Part of `ImageIsLowercaseName`: the variants with discriminant 15 to 17. */
  lemma LowercaseImages5()
    ensures forall w :: 15 <= Discriminant(w) < 18 ==> Image(w) == ToLower(VariantName(w))
  {
  }

  /** Part of `ImageIsLowercaseName`: the variants with discriminant 18 to 20. */
  lemma LowercaseImages6()
    ensures forall w :: 18 <= Discriminant(w) < 21 ==> Image(w) == ToLower(VariantName(w))
  {
  }

  /** Part of `ImageIsLowercaseName`: the variants with discriminant 21 to 23. */
  lemma LowercaseImages7()
    ensures forall w :: 21 <= Discriminant(w) < 24 ==> Image(w) == ToLower(VariantName(w))
  {
  }

  /** Part of `ImageIsLowercaseName`: the variants with discriminant 24 to 26. */
  lemma LowercaseImages8()
    ensures forall w :: 24 <= Discriminant(w) < 27 ==> Image(w) == ToLower(VariantName(w))
  {
  }

  /** Part of `ImageIsLowercaseName`: the variants with discriminant 27 to 29. */
  lemma LowercaseImages9()
    ensures forall w :: 27 <= Discriminant(w) < 30 ==> Image(w) == ToLower(VariantName(w))
  {
  }

  /** Part of `ImageIsLowercaseName`: the variants with discriminant 30 to 32. */
  lemma LowercaseImages10()
    ensures forall w :: 30 <= Discriminant(w) < 33 ==> Image(w) == ToLower(VariantName(w))
  {
  }

  /** Part of `ImageIsLowercaseName`: the variants with discriminant 33 to 35. */
  lemma LowercaseImages11()
    ensures forall w :: 33 <= Discriminant(w) < 36 ==> Image(w) == ToLower(VariantName(w))
  {
  }

  /** Part of `ImageIsLowercaseName`: the variants with discriminant 36 to 37. */
  lemma LowercaseImages12()
    ensures forall w :: 36 <= Discriminant(w) < 38 ==> Image(w) == ToLower(VariantName(w))
  {
  }

  /** The image of a variant is the lower-case spelling of its name. */
  lemma ImageIsLowercaseName(w: Warnid)
    ensures Image(w) == ToLower(VariantName(w))
  {
    LowercaseImages0();
    LowercaseImages1();
    LowercaseImages2();
    LowercaseImages3();
    LowercaseImages4();
    LowercaseImages5();
    LowercaseImages6();
    LowercaseImages7();
    LowercaseImages8();
    LowercaseImages9();
    LowercaseImages10();
    LowercaseImages11();
    LowercaseImages12();
  }

  /** `IMAGES[i]` is the lower-case spelling of the name of variant `VALUES[i]`. */
  lemma ImagesAreLowercaseNames()
    ensures |Images| == |Values|
    ensures forall i :: 0 <= i < |Images| ==> Images[i] == ToLower(VariantName(Values[i]))
  {
    forall i | 0 <= i < |Images|
      ensures Images[i] == ToLower(VariantName(Values[i]))
    {
      ValuesAreDeclarationOrder();
      ImageIsLowercaseName(Values[i]);
    }
  }

  /** Part of `ImagesReadBack`: entries 0 to 18 of `IMAGES`. */
  lemma ImagesReadBack0()
    ensures forall i :: 0 <= i < 19 ==> FromImage(Images[i]) == Some(Values[i])
  {
  }

  /** Part of `ImagesReadBack`: entries 19 to 37 of `IMAGES`. */
  lemma ImagesReadBack1()
    ensures forall i :: 19 <= i < 38 ==> FromImage(Images[i]) == Some(Values[i])
  {
  }

  /** Reading back `IMAGES[i]` gives `VALUES[i]`. */
  lemma ImagesReadBack()
    ensures forall i :: 0 <= i < |Images| ==> FromImage(Images[i]) == Some(Values[i])
  {
    ImagesReadBack0();
    ImagesReadBack1();
  }

  /** Reading back the image of a warning gives that warning. */
  lemma ImageRoundTrip(w: Warnid)
    ensures FromImage(Image(w)) == Some(w)
  {
    ValuesIndexedByDiscriminant(w);
    ImagesReadBack();
  }

  /** `FromImage` answers `Some` only for a string found in `IMAGES`. */
  lemma FromImageOnlyOnImages(s: string)
    ensures FromImage(s).Some? ==> s in Images
  {
  }

  /** `FromImage` is exactly the inverse of `Image`: a name denotes a warning iff it is that warning's image. */
  lemma FromImageInvertsImage(s: string, w: Warnid)
    ensures FromImage(s) == Some(w) <==> Image(w) == s
  {
    ImageRoundTrip(w);
    if FromImage(s) == Some(w) {
      FromImageOnlyOnImages(s);
      var i :| 0 <= i < |Images| && Images[i] == s;
      ImagesReadBack();
      ValuesAreDeclarationOrder();
    }
  }

  /** A name denotes a warning exactly when it is one of the images. */
  lemma FromImageDefinedOnImages(s: string)
    ensures FromImage(s).Some? <==> s in Images
  {
    FromImageOnlyOnImages(s);
    ImagesReadBack();
  }

  /** All 38 images are pairwise distinct, so image to `Warnid` is well defined. */
  lemma ImagesDistinct(i: nat, j: nat)
    requires i < |Images| && j < |Images| && i != j
    ensures Images[i] != Images[j]
  {
    ImagesReadBack();
    ValuesAreDeclarationOrder();
  }
}
