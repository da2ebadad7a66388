/** `MessageCallback`: the classification of asynchronous OpenGL debug
    messages into a log level and the labels printed with them. The
    enumerants are the GLenum codes of the OpenGL debug-output interface. */
module DebugMessages {
  import opened Ints

  const SourceApi: u32 := 0x8246
  const SourceWindowSystem: u32 := 0x8247
  const SourceShaderCompiler: u32 := 0x8248
  const SourceThirdParty: u32 := 0x8249
  const SourceApplication: u32 := 0x824A
  const SourceOther: u32 := 0x824B

  const TypeError: u32 := 0x824C
  const TypeDeprecatedBehavior: u32 := 0x824D
  const TypeUndefinedBehavior: u32 := 0x824E
  const TypePortability: u32 := 0x824F
  const TypePerformance: u32 := 0x8250
  const TypeOther: u32 := 0x8251

  const SeverityHigh: u32 := 0x9146
  const SeverityMedium: u32 := 0x9147
  const SeverityLow: u32 := 0x9148
  const SeverityNotification: u32 := 0x826B

  /** The log levels a driver message can be printed at. */
  datatype LogLevel = Info | Warning | Error | Fatal

  /** What the callback hands to the logger besides the message text. */
  datatype Labels = Labels(level: LogLevel, source: string, kind: string)

  /** The severity switch: low, medium and high map to Warning, Error and
      Fatal; every other severity (notification included) stays at Info. */
  function Level(severity: u32): (r: LogLevel)
    ensures r == Warning <==> severity == SeverityLow
    ensures r == Error <==> severity == SeverityMedium
    ensures r == Fatal <==> severity == SeverityHigh
    ensures r == Info <==> severity !in {SeverityLow, SeverityMedium, SeverityHigh}
  {
    if severity == SeverityLow then Warning
    else if severity == SeverityMedium then Error
    else if severity == SeverityHigh then Fatal
    else Info
  }

  /** The source switch. Four sources have a name; the others, third-party
      and "other" included, read "OTHER". */
  function SourceLabel(source: u32): (r: string)
    ensures r == "API" <==> source == SourceApi
    ensures r == "WINDOW SYSTEM" <==> source == SourceWindowSystem
    ensures r == "SHADER COMPILER" <==> source == SourceShaderCompiler
    ensures r == "APPLICATION" <==> source == SourceApplication
    ensures r == "OTHER" <==> source !in {SourceApi, SourceWindowSystem, SourceShaderCompiler, SourceApplication}
  {
    if source == SourceApi then "API"
    else if source == SourceWindowSystem then "WINDOW SYSTEM"
    else if source == SourceShaderCompiler then "SHADER COMPILER"
    else if source == SourceApplication then "APPLICATION"
    else "OTHER"
  }

  /** The four message types the type switch names. */
  const NamedTypes: set<u32> := {TypeError, TypeDeprecatedBehavior, TypeUndefinedBehavior, TypePerformance}

  /** The type switch's label for a named type. */
  function TypeLabel(kind: u32): (r: string)
    requires kind in NamedTypes
    ensures r == "ERROR" <==> kind == TypeError
    ensures r == "DEPRECATED" <==> kind == TypeDeprecatedBehavior
    ensures r == "U.B." <==> kind == TypeUndefinedBehavior
    ensures r == "PERFORMANCE" <==> kind == TypePerformance
  {
    if kind == TypeError then "ERROR"
    else if kind == TypeDeprecatedBehavior then "DEPRECATED"
    else if kind == TypeUndefinedBehavior then "U.B."
    else "PERFORMANCE"
  }

  /** The callback as written: the `default` branch of the type switch
      assigns the SOURCE label, so a message of an unnamed type (portability,
      marker, "other", ...) prints an empty type label and "OTHER" in place of
      its real source. */
  function Classify(source: u32, kind: u32, severity: u32): (r: Labels)
    ensures r.level == Level(severity)
    ensures kind in NamedTypes ==> r.source == SourceLabel(source) && r.kind == TypeLabel(kind)
    ensures kind !in NamedTypes ==> r.source == "OTHER" && r.kind == ""
  {
    var src := SourceLabel(source);
    if kind in NamedTypes then Labels(Level(severity), src, TypeLabel(kind))
    else Labels(Level(severity), "OTHER", "")
  }

  /** A driver error from the API itself, reported with the portability
      type, is printed as coming from "OTHER" with no type. */
  lemma ClassifyLosesSource()
    ensures Classify(SourceApi, TypePortability, SeverityMedium) == Labels(Error, "OTHER", "")
    ensures ClassifyIntended(SourceApi, TypePortability, SeverityMedium) == Labels(Error, "API", "OTHER")
  {
  }

  /** The codes no case of the callback names: third-party and "other"
      sources read "OTHER", a notification is logged at Info, and a message
      of the "other" type is unnamed, so the callback as written replaces
      its source label and leaves its type blank. */
  lemma UnnamedCodes()
    ensures SourceLabel(SourceThirdParty) == "OTHER" && SourceLabel(SourceOther) == "OTHER"
    ensures Level(SeverityNotification) == Info
    ensures Classify(SourceApplication, TypeOther, SeverityNotification) == Labels(Info, "OTHER", "")
    ensures ClassifyIntended(SourceApplication, TypeOther, SeverityNotification) == Labels(Info, "APPLICATION", "OTHER")
  {
  }

  /** The evidently intended callback: the `default` branch labels the TYPE
      "OTHER" and leaves the source label alone. */
  function ClassifyIntended(source: u32, kind: u32, severity: u32): (r: Labels)
    ensures r.level == Level(severity)
    ensures r.source == SourceLabel(source)
    ensures r.kind == "OTHER" <==> kind !in NamedTypes
    ensures kind in NamedTypes ==> r.kind == TypeLabel(kind)
  {
    var src := SourceLabel(source);
    if kind in NamedTypes then Labels(Level(severity), src, TypeLabel(kind))
    else Labels(Level(severity), src, "OTHER")
  }

  /** The two agree on every named type and differ on every other one:
      the source label is lost exactly for the unnamed types of messages
      whose source has a name. */
  lemma IntendedDiffersOnlyOnUnnamedTypes(source: u32, kind: u32, severity: u32)
    ensures Classify(source, kind, severity) == ClassifyIntended(source, kind, severity) <==> kind in NamedTypes
    ensures Classify(source, kind, severity).source != ClassifyIntended(source, kind, severity).source
      <==> kind !in NamedTypes && source in {SourceApi, SourceWindowSystem, SourceShaderCompiler, SourceApplication}
  {
  }

  /** The text handed to the logger: `OpenGL (<source> [<type>]): <msg>`. */
  function Line(l: Labels, msg: string): (r: string)
    ensures |r| == 14 + |l.source| + |l.kind| + |msg|
    ensures r[..8] == "OpenGL ("
    ensures r[8..8 + |l.source|] == l.source
    ensures r[8 + |l.source|..10 + |l.source|] == " ["
    ensures r[10 + |l.source|..10 + |l.source| + |l.kind|] == l.kind
    ensures r[10 + |l.source| + |l.kind|..14 + |l.source| + |l.kind|] == "]): "
    ensures r[|r| - |msg|..] == msg
  {
    "OpenGL (" + l.source + " [" + l.kind + "]): " + msg
  }

  /** What the reader of the log sees for an API portability warning: the
      callback as written prints "OTHER" where "API" belongs and an empty
      type, where the intended one prints both names. */
  lemma PortabilityLine(msg: string)
    ensures Line(Classify(SourceApi, TypePortability, SeverityMedium), msg) == "OpenGL (OTHER []): " + msg
    ensures Line(ClassifyIntended(SourceApi, TypePortability, SeverityMedium), msg) == "OpenGL (API [OTHER]): " + msg
  {
    ClassifyLosesSource();
    var prefix: string := "OpenGL (" + "OTHER" + " [" + "" + "]): ";
    assert prefix == "OpenGL (OTHER []): ";
    var intended: string := "OpenGL (" + "API" + " [" + "OTHER" + "]): ";
    assert intended == "OpenGL (API [OTHER]): ";
  }
}
