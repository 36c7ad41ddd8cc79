/**
 * Throw: one eye-of-ender throw as read from an F3+C line, an immutable
 * record. The heading is normalised into [-180, 180] when the record is
 * built; a correction offset and the alternate-deviation flag can be changed
 * by building a new record.
 */
module EyeThrow {
  import opened Wrappers
  import RealMath
  import Text

  /** The three standard deviations a throw may be measured with. */
  datatype StdSettings = StdSettings(sigma: real, sigmaAlt: real, sigmaManual: real)

  datatype Throw = Throw(
    x: real,
    z: real,
    alpha0: real,
    beta: real,
    correction: real,
    altStd: bool,
    nether: bool,
    manualInput: bool)
  {
    /** Every record built by MakeThrow has its heading in [-180, 180]. */
    ghost predicate Valid() {
      -180.0 <= alpha0 <= 180.0
    }

    /** alpha(): the heading with the correction applied. */
    function Alpha(): real {
      alpha0 + correction
    }

    /** withAddedCorrection: rebuilds the throw with the correction grown by delta. */
    function WithAddedCorrection(delta: real): (r: Throw)
      ensures r.Valid()
      ensures Valid() ==> r == this.(correction := correction + delta)
      ensures Valid() ==> r.Alpha() == Alpha() + delta
    {
      MakeThrow(x, z, alpha0, beta, correction + delta, altStd, nether, manualInput)
    }

    /** withToggledSTD: rebuilds the throw with the alternate-deviation flag flipped. */
    function WithToggledStd(): (r: Throw)
      ensures r.Valid()
      ensures Valid() ==> r == this.(altStd := !altStd)
    {
      MakeThrow(x, z, alpha0, beta, correction, !altStd, nether, manualInput)
    }

    /** lookingBelowHorizon: the pitch points downwards. */
    predicate LookingBelowHorizon() {
      beta > 0.0
    }

    /** getStd: manual input wins over the alternate flag. */
    function GetStd(stds: StdSettings): (r: real)
      ensures manualInput ==> r == stds.sigmaManual
      ensures !manualInput && altStd ==> r == stds.sigmaAlt
      ensures !manualInput && !altStd ==> r == stds.sigma
    {
      if manualInput then stds.sigmaManual
      else if altStd then stds.sigmaAlt
      else stds.sigma
    }
  }

  /**
   * The heading normalisation of the constructor: the truncating remainder by
   * 360, then one step of 360 towards zero when it lies outside [-180, 180].
   */
  function NormalizeHeading(alpha: real): (r: real)
    ensures -180.0 <= r <= 180.0
    ensures RealMath.IsMultiple(alpha - r, 360.0)
    ensures -180.0 <= alpha <= 180.0 ==> r == alpha
  {
    var a := RealMath.JavaRem(alpha, 360.0);
    var k :| alpha - a == RealMath.Times(k, 360.0);
    if a < -180.0 then
      assert alpha - (a + 360.0) == RealMath.Times(k - 1, 360.0);
      a + 360.0
    else if a > 180.0 then
      assert alpha - (a - 360.0) == RealMath.Times(k + 1, 360.0);
      a - 360.0
    else
      a
  }

  /** The full constructor of Throw. */
  function MakeThrow(
    x: real, z: real, alpha: real, beta: real, correction: real,
    altStd: bool, nether: bool, manualInput: bool): (t: Throw)
    ensures t.Valid()
    ensures RealMath.IsMultiple(alpha - t.alpha0, 360.0)
    ensures -180.0 <= alpha <= 180.0 ==> t.alpha0 == alpha
    ensures t.x == x && t.z == z && t.beta == beta && t.correction == correction
    ensures t.altStd == altStd && t.nether == nether && t.manualInput == manualInput
  {
    Throw(x, z, NormalizeHeading(alpha), beta, correction, altStd, nether, manualInput)
  }

  /** Normalising twice is normalising once. */
  lemma NormalizeHeadingIdempotent(alpha: real)
    ensures NormalizeHeading(NormalizeHeading(alpha)) == NormalizeHeading(alpha)
  {
  }

  /** Two corrections in a row add up. */
  lemma CorrectionsAdd(t: Throw, d1: real, d2: real)
    requires t.Valid()
    ensures t.WithAddedCorrection(d1).WithAddedCorrection(d2) == t.WithAddedCorrection(d1 + d2)
  {
  }

  /** Toggling the deviation flag twice restores every field. */
  lemma ToggleTwice(t: Throw)
    requires t.Valid()
    ensures t.WithToggledStd().WithToggledStd() == t
  {
  }

  /**
   * Toggling swaps sigma and sigmaAlt for a throw that was not typed in by
   * hand, and changes nothing for one that was.
   */
  lemma GetStdOfToggled(t: Throw, stds: StdSettings)
    requires t.Valid()
    ensures t.manualInput ==> t.WithToggledStd().GetStd(stds) == t.GetStd(stds)
    ensures !t.manualInput && t.altStd ==> t.WithToggledStd().GetStd(stds) == stds.sigma
    ensures !t.manualInput && !t.altStd ==> t.WithToggledStd().GetStd(stds) == stds.sigmaAlt
  {
  }

  // ---------------------------------------------------------------------
  // Parsing the clipboard
  // ---------------------------------------------------------------------

  const OverworldPrefix: string := "/execute in minecraft:overworld run tp @s"
  const NetherPrefix: string := "/execute in minecraft:the_nether run tp @s"
  const OverworldDimension: string := "minecraft:overworld"
  const NetherDimension: string := "minecraft:the_nether"

  /** The pitch a 1.12 coordinate line is assumed to have been taken at. */
  const OneTwelveBeta: real := -31.0

  ghost predicate HasCommandPrefix(s: string) {
    OverworldPrefix <= s || NetherPrefix <= s
  }

  /**
   * parseF3C: a 1.13+ "/execute in <dimension> run tp @s x y z yaw pitch"
   * line, or else the 1.12 form. Double.parseDouble is the parameter
   * parseDouble (None for a NumberFormatException); the crosshair correction
   * preference is the parameter crosshair.
   */
  function ParseF3C(s: string, parseDouble: string -> Option<real>, crosshair: real): (r: Option<Throw>)
    ensures r.Some? ==> r.value.Valid() && r.value.correction == 0.0 && !r.value.altStd
    ensures HasCommandPrefix(s) && |Text.Split(s, Text.Space)| != 11 ==> r == None
    ensures HasCommandPrefix(s) && r.Some? ==>
      var ts := Text.Split(s, Text.Space);
      && !r.value.manualInput
      && (r.value.nether <==> ts[2] == NetherDimension)
      && Some(r.value.x) == parseDouble(ts[6])
      && Some(r.value.z) == parseDouble(ts[8])
      && Some(r.value.beta) == parseDouble(ts[10])
      && parseDouble(ts[9]).Some?
      && RealMath.IsMultiple(parseDouble(ts[9]).value + crosshair - r.value.alpha0, 360.0)
    ensures !HasCommandPrefix(s) ==> r == ParseF3COneTwelve(s, parseDouble, crosshair)
  {
    if !(OverworldPrefix <= s || NetherPrefix <= s) then
      ParseF3COneTwelve(s, parseDouble, crosshair)
    else
      var ts := Text.Split(s, Text.Space);
      if |ts| != 11 then None
      else
        var nether := ts[2] == NetherDimension;
        match (parseDouble(ts[6]), parseDouble(ts[8]), parseDouble(ts[9]), parseDouble(ts[10]))
        case (Some(x), Some(z), Some(alpha), Some(beta)) =>
          Some(MakeThrow(x, z, alpha + crosshair, beta, 0.0, false, nether, false))
        case _ => None
  }

  /**
   * parseF3COneTwelve: "x z yaw" in block coordinates; the position is moved
   * to the block centre and the throw is marked as typed in by hand.
   */
  function ParseF3COneTwelve(s: string, parseDouble: string -> Option<real>, crosshair: real): (r: Option<Throw>)
    ensures |Text.Split(s, Text.Space)| != 3 ==> r == None
    ensures r.Some? ==>
      var ts := Text.Split(s, Text.Space);
      && r.value.Valid()
      && Some(r.value.x - 0.5) == parseDouble(ts[0])
      && Some(r.value.z - 0.5) == parseDouble(ts[1])
      && parseDouble(ts[2]).Some?
      && RealMath.IsMultiple(parseDouble(ts[2]).value + crosshair - r.value.alpha0, 360.0)
      && r.value.beta == OneTwelveBeta && r.value.correction == 0.0
      && r.value.manualInput && !r.value.nether && !r.value.altStd
  {
    var ts := Text.Split(s, Text.Space);
    if |ts| != 3 then None
    else
      match (parseDouble(ts[0]), parseDouble(ts[1]), parseDouble(ts[2]))
      case (Some(x), Some(z), Some(alpha)) =>
        Some(MakeThrow(x + 0.5, z + 0.5, alpha + crosshair, OneTwelveBeta, 0.0, false, false, true))
      case _ => None
  }

  /** The words of a 1.13+ F3+C line. */
  function CommandTokens(dimension: string, tx: string, ty: string, tz: string, tyaw: string, tpitch: string): seq<string> {
    ["/execute", "in", dimension, "run", "tp", "@s", tx, ty, tz, tyaw, tpitch]
  }

  /** The first six words of a command line. */
  function CommandHead(dimension: string): seq<string> {
    ["/execute", "in", dimension, "run", "tp", "@s"]
  }

  /** The first six words glued together. */
  lemma JoinOfCommandHead(dimension: string)
    ensures Text.Join(CommandHead(dimension), Text.Space) == "/execute in " + dimension + " run tp @s"
  {
    var ts := CommandHead(dimension);
    assert ts[1..] == ["in", dimension, "run", "tp", "@s"];
    assert ts[2..] == [dimension, "run", "tp", "@s"];
    assert ts[3..] == ["run", "tp", "@s"];
    assert ts[4..] == ["tp", "@s"];
    assert ts[5..] == ["@s"];
    assert Text.Join(ts[4..], Text.Space) == "tp @s";
    assert Text.Join(ts[3..], Text.Space) == "run tp @s";
    assert Text.Join(ts[2..], Text.Space) == dimension + " run tp @s";
  }

  /** No word of the command head holds a space. */
  lemma CommandHeadWords(dimension: string)
    requires dimension == OverworldDimension || dimension == NetherDimension
    ensures Text.NoSeparator(CommandHead(dimension), Text.Space)
  {
    var ts := CommandHead(dimension);
    assert Text.Space !in OverworldDimension && Text.Space !in NetherDimension;
    forall k | 0 <= k < |ts| ensures Text.Space !in ts[k] {
      assert ts[k] in {"/execute", "in", dimension, "run", "tp", "@s"};
    }
  }

  /** The first six words of either dimension glue into that dimension's prefix. */
  lemma CommandHeadPrefix(dimension: string)
    requires dimension == OverworldDimension || dimension == NetherDimension
    ensures dimension == OverworldDimension ==> Text.Join(CommandHead(dimension), Text.Space) == OverworldPrefix
    ensures dimension == NetherDimension ==> Text.Join(CommandHead(dimension), Text.Space) == NetherPrefix
  {
    JoinOfCommandHead(dimension);
    var glued := "/execute in " + dimension + " run tp @s";
    assert Text.Join(CommandHead(dimension), Text.Space) == glued;
    if dimension == OverworldDimension {
      OverworldPrefixLiteral();
    } else {
      NetherPrefixLiteral();
    }
  }

  lemma OverworldPrefixLiteral()
    ensures "/execute in " + OverworldDimension + " run tp @s" == OverworldPrefix
  {
  }

  lemma NetherPrefixLiteral()
    ensures "/execute in " + NetherDimension + " run tp @s" == NetherPrefix
  {
  }

  /**
   * A 1.13+ line built from separator-free words parses back to the throw
   * those words describe. The y word is never read.
   */
  lemma ParseF3CRoundTrip(
    dimension: string, tx: string, ty: string, tz: string, tyaw: string, tpitch: string,
    parseDouble: string -> Option<real>, crosshair: real,
    x: real, z: real, yaw: real, pitch: real)
    requires dimension == OverworldDimension || dimension == NetherDimension
    requires Text.NoSeparator(CommandTokens(dimension, tx, ty, tz, tyaw, tpitch), Text.Space)
    requires tpitch != ""
    requires parseDouble(tx) == Some(x) && parseDouble(tz) == Some(z)
    requires parseDouble(tyaw) == Some(yaw) && parseDouble(tpitch) == Some(pitch)
    ensures ParseF3C(Text.Join(CommandTokens(dimension, tx, ty, tz, tyaw, tpitch), Text.Space), parseDouble, crosshair)
      == Some(MakeThrow(x, z, yaw + crosshair, pitch, 0.0, false, dimension == NetherDimension, false))
  {
    var ts := CommandTokens(dimension, tx, ty, tz, tyaw, tpitch);
    CommandLine(dimension, tx, ty, tz, tyaw, tpitch);
    var s := Text.Join(ts, Text.Space);
    assert ts[2] == dimension && ts[6] == tx && ts[8] == tz && ts[9] == tyaw && ts[10] == tpitch;
    assert ParseF3C(s, parseDouble, crosshair)
      == Some(MakeThrow(x, z, yaw + crosshair, pitch, 0.0, false, ts[2] == NetherDimension, false));
  }

  /** A 1.13+ line of separator-free words carries its dimension's prefix and splits back into its words. */
  lemma CommandLine(dimension: string, tx: string, ty: string, tz: string, tyaw: string, tpitch: string)
    requires dimension == OverworldDimension || dimension == NetherDimension
    requires Text.NoSeparator(CommandTokens(dimension, tx, ty, tz, tyaw, tpitch), Text.Space)
    requires tpitch != ""
    ensures var ts := CommandTokens(dimension, tx, ty, tz, tyaw, tpitch);
      HasCommandPrefix(Text.Join(ts, Text.Space)) && Text.Split(Text.Join(ts, Text.Space), Text.Space) == ts
  {
    var ts := CommandTokens(dimension, tx, ty, tz, tyaw, tpitch);
    assert ts == CommandHead(dimension) + [tx, ty, tz, tyaw, tpitch];
    CommandHeadPrefix(dimension);
    Text.JoinAppend(CommandHead(dimension), [tx, ty, tz, tyaw, tpitch], Text.Space);
    Text.SplitOfJoin(ts, Text.Space);
  }

  /**
   * A 1.12 line "x z yaw" of separator-free words parses back to the
   * hand-typed throw at the block centre.
   */
  lemma ParseOneTwelveRoundTrip(
    tx: string, tz: string, tyaw: string,
    parseDouble: string -> Option<real>, crosshair: real,
    x: real, z: real, yaw: real)
    requires Text.NoSeparator([tx, tz, tyaw], Text.Space)
    requires tyaw != ""
    requires parseDouble(tx) == Some(x) && parseDouble(tz) == Some(z) && parseDouble(tyaw) == Some(yaw)
    ensures ParseF3C(Text.Join([tx, tz, tyaw], Text.Space), parseDouble, crosshair)
      == Some(MakeThrow(x + 0.5, z + 0.5, yaw + crosshair, OneTwelveBeta, 0.0, false, false, true))
  {
    var s := Text.Join([tx, tz, tyaw], Text.Space);
    Text.CountOfJoin([tx, tz, tyaw], Text.Space);
    FewSpacesNoCommand(s);
    Text.SplitOfJoin([tx, tz, tyaw], Text.Space);
    assert ParseF3C(s, parseDouble, crosshair) == ParseF3COneTwelve(s, parseDouble, crosshair);
  }

  /** A line with fewer than five spaces cannot start with a command prefix. */
  lemma FewSpacesNoCommand(s: string)
    requires Text.Count(s, Text.Space) < 5
    ensures !HasCommandPrefix(s)
  {
    PrefixSpaces();
    NotPrefixOfFewer(OverworldPrefix, s);
    NotPrefixOfFewer(NetherPrefix, s);
  }

  /** A string with five spaces is no prefix of one with fewer. */
  lemma NotPrefixOfFewer(p: string, s: string)
    requires Text.Count(p, Text.Space) == 5 && Text.Count(s, Text.Space) < 5
    ensures !(p <= s)
  {
    if p <= s {
      Text.CountOfPrefix(p, s, Text.Space);
    }
  }

  /** Both command prefixes hold five spaces. */
  lemma PrefixSpaces()
    ensures Text.Count(OverworldPrefix, Text.Space) == 5
    ensures Text.Count(NetherPrefix, Text.Space) == 5
  {
    HeadSpaces(OverworldDimension);
    HeadSpaces(NetherDimension);
    CommandHeadPrefix(OverworldDimension);
    CommandHeadPrefix(NetherDimension);
  }

  /** The six words of a command head are glued by five spaces. */
  lemma HeadSpaces(dimension: string)
    requires dimension == OverworldDimension || dimension == NetherDimension
    ensures Text.Count(Text.Join(CommandHead(dimension), Text.Space), Text.Space) == 5
  {
    CommandHeadWords(dimension);
    Text.CountOfJoin(CommandHead(dimension), Text.Space);
  }
}
