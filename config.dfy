/**
 * The option parsing of the command-line configuration: comma-separated angle and position
 * lists, the cm to mm conversion, and Python's "falsy means not given" rule. `float()` on a
 * piece of text is a parameter `num`, which answers None where Python raises ValueError.
 */
module Config {
  import opened Common
  import opened Text

  /** Parse every piece with `num`, in order; the first piece it rejects raises. */
  function ParseAll(pieces: seq<string>, num: string -> Option<real>, scale: real): (r: Result<seq<real>>)
    ensures r.Success? <==> forall k :: 0 <= k < |pieces| ==> num(pieces[k]).Some?
    ensures r.Success? ==>
      |r.value| == |pieces| && forall k :: 0 <= k < |pieces| ==> r.value[k] == scale * num(pieces[k]).value
    ensures r.Failure? ==> r.error == NotANumber
  {
    if |pieces| == 0 then Success([])
    else
      match num(pieces[0])
      case None => Failure(NotANumber)
      case Some(v) =>
        var rest := ParseAll(pieces[1..], num, scale);
        if rest.Failure? then rest
        else
          assert forall k :: 1 <= k < |pieces| ==> pieces[1..][k - 1] == pieces[k];
          Success([scale * v] + rest.value)
  }

  /** `tuple(scale * float(x) for x in text.split(","))`, or None for a missing or empty text. */
  function ParseList(text: Option<string>, num: string -> Option<real>, scale: real): (r: Result<Option<seq<real>>>)
    ensures text.None? || text.value == "" ==> r == Success(None)
    ensures r.Failure? ==> r.error == NotANumber
    ensures r.Success? && r.value.Some? ==>
      text.Some? && var pieces := Split(text.value, ',');
      |r.value.value| == |pieces| && forall k :: 0 <= k < |pieces| ==> num(pieces[k]).Some? && r.value.value[k] == scale * num(pieces[k]).value
  {
    if text.None? || text.value == "" then Success(None)
    else
      var parsed := ParseAll(Split(text.value, ','), num, scale);
      if parsed.Failure? then Failure(parsed.error) else Success(Some(parsed.value))
  }

  /** `Config.parse_angles`: one angle per comma-separated piece. */
  function ParseAngles(angles: Option<string>, num: string -> Option<real>): (r: Result<Option<seq<real>>>)
    ensures angles.None? || angles.value == "" ==> r == Success(None)
    ensures r.Failure? ==> r.error == NotANumber
    ensures r.Success? && r.value.Some? ==> angles.Some? && |r.value.value| == |Split(angles.value, ',')|
  {
    ParseList(angles, num, 1.0)
  }

  /** `Config.parse_position`: one coordinate per piece, converted from cm to mm. */
  function ParsePosition(position: Option<string>, num: string -> Option<real>): (r: Result<Option<seq<real>>>)
    ensures position.None? || position.value == "" ==> r == Success(None)
    ensures r.Failure? ==> r.error == NotANumber
    ensures r.Success? && r.value.Some? ==>
      position.Some? && var pieces := Split(position.value, ',');
      |r.value.value| == |pieces| && forall k :: 0 <= k < |pieces| ==> num(pieces[k]).Some? && r.value.value[k] == 10.0 * num(pieces[k]).value
  {
    ParseList(position, num, 10.0)
  }

  /**
   * `Config.parse_snout_position` on the command-line value, which is already a float:
   * cm to mm, and None when it is missing or 0.0.
   */
  function ParseSnoutPosition(snout: Option<real>): (r: Option<real>)
    ensures r.None? <==> snout.None? || snout.value == 0.0
    ensures r.Some? ==> r.value == snout.value * 10.0 && r.value != 0.0
  {
    if snout.None? || snout.value == 0.0 then None else Some(snout.value * 10.0)
  }

  /**
   * Otherwise the result holds the pieces between the commas, in order, each parsed by `num`,
   * and it raises exactly when one of them does not parse.
   */
  lemma ParseAnglesMeaning(angles: string, num: string -> Option<real>)
    requires angles != ""
    ensures ParseAngles(Some(angles), num).Success? <==>
      forall k :: 0 <= k < |Split(angles, ',')| ==> num(Split(angles, ',')[k]).Some?
    ensures ParseAngles(Some(angles), num).Failure? ==> ParseAngles(Some(angles), num).error == NotANumber
    ensures ParseAngles(Some(angles), num).Success? ==>
      var v := ParseAngles(Some(angles), num).value;
      v.Some? && |v.value| == |Split(angles, ',')|
      && forall k :: 0 <= k < |v.value| ==> v.value[k] == num(Split(angles, ',')[k]).value
  {
    var pieces := Split(angles, ',');
    var p := ParseAll(pieces, num, 1.0);
    assert ParseAngles(Some(angles), num) == if p.Failure? then Failure(p.error) else Success(Some(p.value));
  }

  /** The position list is the angle-style list with every entry multiplied by 10 (cm to mm). */
  lemma ParsePositionInMillimetres(position: Option<string>, num: string -> Option<real>)
    ensures ParsePosition(position, num).Success? <==> ParseAngles(position, num).Success?
    ensures ParsePosition(position, num).Success? ==>
      var mm, cm := ParsePosition(position, num).value, ParseAngles(position, num).value;
      (mm.None? <==> cm.None?)
      && (mm.Some? ==>
            |mm.value| == |cm.value| && forall k :: 0 <= k < |cm.value| ==> mm.value[k] == 10.0 * cm.value[k])
  {
  }

  /** A list with n commas yields n + 1 values, one per piece. */
  lemma ParseAnglesCount(angles: string, num: string -> Option<real>)
    requires angles != ""
    requires ParseAngles(Some(angles), num).Success?
    ensures ParseAngles(Some(angles), num).value.Some?
    ensures |ParseAngles(Some(angles), num).value.value| == Count(angles, ',') + 1
  {
    SplitCount(angles, ',');
  }

  /** The command-line values the configuration reads. */
  datatype Arguments = Arguments(
    gantryAngles: Option<string>,
    tablePosition: Option<string>,
    snoutPosition: Option<real>,
    duplicateFields: Option<int>,
    rescaleDose: Option<real>,
    rescaleFactor: Option<real>,
    rescaleMinimize: bool)

  /** The configuration built from them. */
  datatype Settings = Settings(
    gantryAngles: Option<seq<real>>,
    tablePosition: Option<seq<real>>,
    snoutPosition: Option<real>,
    duplicateFields: Option<int>,
    rescaleDose: Option<real>,
    rescaleFactor: Option<real>,
    rescaleMinimize: bool)

  /** `Config.__init__`: gantry angles are parsed first, then the table position, then the snout. */
  function FromArguments(a: Arguments, num: string -> Option<real>): (r: Result<Settings>)
    ensures r.Failure? ==> r.error == NotANumber
    ensures r.Success? ==>
      r.value.snoutPosition == ParseSnoutPosition(a.snoutPosition) && r.value.duplicateFields == a.duplicateFields
      && r.value.rescaleDose == a.rescaleDose && r.value.rescaleFactor == a.rescaleFactor
      && r.value.rescaleMinimize == a.rescaleMinimize
  {
    var angles := ParseAngles(a.gantryAngles, num);
    if angles.Failure? then Failure(angles.error)
    else
      var table := ParsePosition(a.tablePosition, num);
      if table.Failure? then Failure(table.error)
      else Success(Settings(angles.value, table.value, ParseSnoutPosition(a.snoutPosition),
                            a.duplicateFields, a.rescaleDose, a.rescaleFactor, a.rescaleMinimize))
  }

  /**
   * The configuration routes the gantry, table and snout values through their parsers and
   * copies the rescale options unchanged; it fails exactly when one of the two lists does.
   */
  lemma FromArgumentsRouting(a: Arguments, num: string -> Option<real>)
    ensures FromArguments(a, num).Success? <==>
      ParseAngles(a.gantryAngles, num).Success? && ParsePosition(a.tablePosition, num).Success?
    ensures FromArguments(a, num).Success? ==>
      var s := FromArguments(a, num).value;
      s.gantryAngles == ParseAngles(a.gantryAngles, num).value
      && s.tablePosition == ParsePosition(a.tablePosition, num).value
      && s.snoutPosition == ParseSnoutPosition(a.snoutPosition)
      && s.duplicateFields == a.duplicateFields && s.rescaleDose == a.rescaleDose
      && s.rescaleFactor == a.rescaleFactor && s.rescaleMinimize == a.rescaleMinimize
  {
  }
}
