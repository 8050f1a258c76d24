/** pkg/fcfs-driver/volumeoptions.go: what a request or a volume ID says about the pool behind it. */
module VolumeOptions {
  import opened Bytes
  import opened Wrappers
  import opened VolumeId
  import opened VolumeSize

  const CONFIG_BASE_PATH: Str := Ascii("fastcfs-config-base-path")
  const CSI_VOL_NAMING_PREFIX: Str := Ascii("csi-vol-")
  const STATIC: Str := Ascii("static")

  datatype VolumeOptions = VolumeOptions(
    volName: Str, capacityBytes: int64, volID: Str, baseConfigURL: Str, preProvisioned: bool)

  datatype OptionsError = BasePathMissing | IdTooLong | InvalidVolID | NonStaticVolume | BadStaticFlag

  /** Reading a missing key of a Go map of strings gives the empty string. */
  function Lookup(m: map<Str, Str>, key: Str): Str {
    if key in m then m[key] else []
  }

  function NewVolumeOptions(parameters: map<Str, Str>, requestName: Str, userName: Str, required: int64)
    : Result<VolumeOptions, OptionsError>
  {
    var basePath := Lookup(parameters, CONFIG_BASE_PATH);
    if basePath == [] then Err(BasePathMissing)
    else
      var volName := CSI_VOL_NAMING_PREFIX + requestName;
      match Compose(Identifier(basePath, userName, volName))
      case None => Err(IdTooLong)
      case Some(csiid) => Ok(VolumeOptions(volName, RoundOffBytes(required), csiid, basePath, false))
  }

  /** Malformed is ErrInvalidVolID. */
  function NewVolOptionsFromVolID(volID: Str, range: Option<int64>): Outcome<VolumeOptions> {
    match Decode(volID)
    case Panic => Panic
    case Malformed => Malformed
    case Read(cid) =>
      Read(VolumeOptions(cid.volName, if range.Some? then range.value else 0, volID, cid.clusterID, false))
  }

  /** strconv.ParseBool. */
  function ParseBool(s: Str): Option<bool> {
    if s in {Ascii("1"), Ascii("t"), Ascii("T"), Ascii("TRUE"), Ascii("true"), Ascii("True")} then Some(true)
    else if s in {Ascii("0"), Ascii("f"), Ascii("F"), Ascii("FALSE"), Ascii("false"), Ascii("False")} then Some(false)
    else None
  }

  function NewVolOptionsFromStatic(volID: Str, options: map<Str, Str>): Result<VolumeOptions, OptionsError> {
    if STATIC !in options then Err(NonStaticVolume)
    else
      match ParseBool(options[STATIC])
      case None => Err(BadStaticFlag)
      case Some(false) => Err(NonStaticVolume)
      case Some(true) =>
        var basePath := Lookup(options, CONFIG_BASE_PATH);
        if basePath == [] then Err(BasePathMissing)
        else Ok(VolumeOptions(volID, 0, volID, basePath, true))
  }

  /** How NodeStageVolume gets its options: the static fallback is for IDs reported as invalid. */
  function StageOptions(volID: Str, context: map<Str, Str>): Outcome<Result<VolumeOptions, OptionsError>> {
    match NewVolOptionsFromVolID(volID, None)
    case Panic => Panic
    case Read(vol) => Read(Ok(vol))
    case Malformed => Read(NewVolOptionsFromStatic(volID, context))
  }

  // ---------- properties ----------

  /** 128 less fifteen framing bytes and the eight of the pool name prefix. */
  const MAX_TEXTS := 105

  predicate Fits(parameters: map<Str, Str>, name: Str, userName: Str) {
    var basePath := Lookup(parameters, CONFIG_BASE_PATH);
    basePath != [] && |basePath| + |userName| + |name| <= MAX_TEXTS
  }

  /** A create is accepted exactly when a base path is given and the three texts fit the ID; the size never matters. */
  lemma AcceptedIff(parameters: map<Str, Str>, name: Str, userName: Str, required: int64)
    ensures NewVolumeOptions(parameters, name, userName, required).Ok? <==> Fits(parameters, name, userName)
    ensures NewVolumeOptions(parameters, name, userName, required) == Err(BasePathMissing)
       <==> Lookup(parameters, CONFIG_BASE_PATH) == []
  {
    hide LengthField, RoundOffBytes, Join;
  }

  /** An accepted create yields an ID that leads back to its pool name and configuration. */
  lemma CreatedIdLeadsBack(parameters: map<Str, Str>, name: Str, userName: Str, required: int64, range: Option<int64>)
    requires Fits(parameters, name, userName)
    ensures NewVolumeOptions(parameters, name, userName, required).Ok?
    ensures var vol := NewVolumeOptions(parameters, name, userName, required).value;
            NewVolOptionsFromVolID(vol.volID, range)
            == Read(vol.(capacityBytes := if range.Some? then range.value else 0))
  {
    hide Compose, Decode, RoundOffBytes;
    AcceptedIff(parameters, name, userName, required);
    var basePath := Lookup(parameters, CONFIG_BASE_PATH);
    DecodeOfCompose(Identifier(basePath, userName, CSI_VOL_NAMING_PREFIX + name));
  }

  /** Two accepted creates share an ID exactly when base path, user and name are the same. */
  lemma CreatedIdsAreDistinct(p1: map<Str, Str>, n1: Str, u1: Str, r1: int64,
                              p2: map<Str, Str>, n2: Str, u2: Str, r2: int64)
    requires Fits(p1, n1, u1) && Fits(p2, n2, u2)
    ensures NewVolumeOptions(p1, n1, u1, r1).Ok? && NewVolumeOptions(p2, n2, u2, r2).Ok?
    ensures NewVolumeOptions(p1, n1, u1, r1).value.volID == NewVolumeOptions(p2, n2, u2, r2).value.volID
       <==> Lookup(p1, CONFIG_BASE_PATH) == Lookup(p2, CONFIG_BASE_PATH) && u1 == u2 && n1 == n2
  {
    hide Compose, RoundOffBytes;
    AcceptedIff(p1, n1, u1, r1);
    AcceptedIff(p2, n2, u2, r2);
    if NewVolumeOptions(p1, n1, u1, r1).value.volID == NewVolumeOptions(p2, n2, u2, r2).value.volID {
      SameIdSameTexts(p1, n1, u1, p2, n2, u2);
    }
  }

  lemma SameIdSameTexts(p1: map<Str, Str>, n1: Str, u1: Str, p2: map<Str, Str>, n2: Str, u2: Str)
    requires var a := Compose(Identifier(Lookup(p1, CONFIG_BASE_PATH), u1, CSI_VOL_NAMING_PREFIX + n1));
             var b := Compose(Identifier(Lookup(p2, CONFIG_BASE_PATH), u2, CSI_VOL_NAMING_PREFIX + n2));
             a.Some? && b.Some? && a.value == b.value
    ensures Lookup(p1, CONFIG_BASE_PATH) == Lookup(p2, CONFIG_BASE_PATH) && u1 == u2 && n1 == n2
  {
    hide Compose;
    ComposeIsPrefixFree(Identifier(Lookup(p1, CONFIG_BASE_PATH), u1, CSI_VOL_NAMING_PREFIX + n1),
                        Identifier(Lookup(p2, CONFIG_BASE_PATH), u2, CSI_VOL_NAMING_PREFIX + n2));
    PrefixIsInjective(n1, n2);
  }

  lemma PrefixIsInjective(n1: Str, n2: Str)
    requires CSI_VOL_NAMING_PREFIX + n1 == CSI_VOL_NAMING_PREFIX + n2
    ensures n1 == n2
  {
    assert n1 == (CSI_VOL_NAMING_PREFIX + n1)[|CSI_VOL_NAMING_PREFIX|..];
    assert n2 == (CSI_VOL_NAMING_PREFIX + n2)[|CSI_VOL_NAMING_PREFIX|..];
  }

  /** No created volume is ever staged as a static one, whatever its context says. */
  lemma CreatedIsNeverStatic(parameters: map<Str, Str>, name: Str, userName: Str, required: int64,
                             context: map<Str, Str>)
    requires Fits(parameters, name, userName)
    ensures NewVolumeOptions(parameters, name, userName, required).Ok?
    ensures var vol := NewVolumeOptions(parameters, name, userName, required).value;
            StageOptions(vol.volID, context) == Read(Ok(vol.(capacityBytes := 0)))
  {
    hide NewVolumeOptions, NewVolOptionsFromVolID;
    CreatedIdLeadsBack(parameters, name, userName, required, None);
  }

  /** Whether an ID panics, is invalid or is read does not depend on the capacity asked for. */
  lemma RangeDoesNotMatter(volID: Str, range: Option<int64>)
    ensures NewVolOptionsFromVolID(volID, range) == Panic <==> AtSomeField(volID, OverrunsAt)
    ensures NewVolOptionsFromVolID(volID, range) == Malformed <==> AtSomeField(volID, BadLengthAt)
    ensures NewVolOptionsFromVolID(volID, range).Read? <==> ThreeFields(volID)
  {
    hide Decode, AtSomeField, ThreeFields;
    FieldsInTurn(volID);
  }

  /** Which error a context that does not mark a static volume gives. */
  lemma StaticErrors(volID: Str, context: map<Str, Str>)
    ensures NewVolOptionsFromStatic(volID, context).Ok? <==> MarkedStatic(context)
    ensures NewVolOptionsFromStatic(volID, context) == Err(BasePathMissing)
       <==> STATIC in context && ParseBool(context[STATIC]) == Some(true) && Lookup(context, CONFIG_BASE_PATH) == []
    ensures NewVolOptionsFromStatic(volID, context) == Err(NonStaticVolume)
       <==> STATIC !in context || ParseBool(context[STATIC]) == Some(false)
  {
  }

  predicate StagedAsStatic(volID: Str, context: map<Str, Str>) {
    match StageOptions(volID, context)
    case Read(Ok(vol)) => vol.preProvisioned
    case _ => false
  }

  /** What the context of a static volume has to say. */
  predicate MarkedStatic(context: map<Str, Str>) {
    && STATIC in context
    && context[STATIC] in {Ascii("1"), Ascii("t"), Ascii("T"), Ascii("TRUE"), Ascii("true"), Ascii("True")}
    && Lookup(context, CONFIG_BASE_PATH) != []
  }

  /**
   * A volume is staged as static, under its ID as pool name, exactly when its context marks it and somewhere in the ID
   * four bytes stand where a length should and are none; and staging it panics, whatever the context says, exactly when
   * somewhere a length is cut off or says more than there is.
   */
  lemma StagedAsStaticIff(volID: Str, context: map<Str, Str>)
    ensures StagedAsStatic(volID, context) <==> AtSomeField(volID, BadLengthAt) && MarkedStatic(context)
    ensures StagedAsStatic(volID, context) ==>
              StageOptions(volID, context).value.value.volName == volID
              && StageOptions(volID, context).value.value.baseConfigURL == Lookup(context, CONFIG_BASE_PATH)
    ensures StageOptions(volID, context) == Panic <==> AtSomeField(volID, OverrunsAt)
  {
    hide Decode, AtSomeField;
    PanicIff(volID);
    MalformedIff(volID);
  }

  /**
   * An ID and a context with which a volume can be staged: a composed ID, or a name that is none and is marked
   * as static.
   */
  predicate Usable(volID: Str, context: map<Str, Str>) {
    ThreeFields(volID) || (AtSomeField(volID, BadLengthAt) && MarkedStatic(context))
  }

  lemma StageOptionsIff(volID: Str, context: map<Str, Str>)
    ensures StageOptions(volID, context) == Panic <==> AtSomeField(volID, OverrunsAt)
    ensures StageOptions(volID, context).Read? && StageOptions(volID, context).value.Ok? <==> Usable(volID, context)
    ensures Usable(volID, context) ==> !AtSomeField(volID, OverrunsAt)
    ensures StageOptions(volID, context) != Malformed
  {
    hide Decode, AtSomeField, ThreeFields;
    FieldsInTurn(volID);
  }

  /**
   * So any name of four bytes or more whose first four are not all hexadecimal digits works as that of a static
   * volume; a shorter one never does.
   */
  lemma StaticNames(volID: Str, context: map<Str, Str>)
    requires !LengthAt(volID, 0) && MarkedStatic(context)
    ensures StagedAsStatic(volID, context) <==> |volID| >= 4
    ensures StageOptions(volID, context) == Panic <==> |volID| < 4
  {
    hide StageOptions, StagedAsStatic, MarkedStatic;
    StagedAsStaticIff(volID, context);
  }
}
