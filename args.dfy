/** The run modes and the mode parser (Info/ConsoleArgsParser.swift). Only the
    mode is parsed; every other launch option keeps its initial value. */
module ConsoleArgs {
  import opened Wrappers
  import opened Errors
  import opened InfoAttributes

  datatype Mode = Save | List | Validate | Restore | ExtractSub | AddSub | RemoveSub {
    function RawValue(): string {
      match this
      case Save => "save"
      case List => "list"
      case Validate => "validate"
      case Restore => "restore"
      case ExtractSub => "extractSub"
      case AddSub => "addSub"
      case RemoveSub => "removeSub"
    }
  }

  /** `Mode.allCases`, in declaration order. */
  const AllModes: seq<Mode> := [Save, List, Validate, Restore, ExtractSub, AddSub, RemoveSub]

  datatype LaunchOption = LaunchOption(
    mode: Mode,
    dirPath: string,
    inputFile: Option<string>,
    outputFile: Option<string>,
    fileAttributeNames: Option<seq<InfoAttribute>>,
    dirAttributeNames: Option<seq<InfoAttribute>>,
    recursive: bool,
    baseFile: Option<string>,
    relativePath: Option<string>,
    subFile: Option<string>,
    overwrite: bool,
    fastHash: bool)

  /** The option `parseArgs` returns for a recognised mode. */
  function InitialOption(mode: Mode): LaunchOption {
    LaunchOption(mode, "", None, None, None, None, false, Some(""), None, None, false, false)
  }

  /** Case folding of the Latin letters. */
  function FoldCase(c: char): char {
    if 'A' <= c <= 'Z' then (c as int - 'A' as int + 'a' as int) as char else c
  }

  /** `caseInsensitiveCompare(_:) == .orderedSame`. */
  predicate EqualIgnoringCase(a: string, b: string): (eq: bool)
    ensures a == b ==> eq
    ensures eq ==> |a| == |b|
  {
    |a| == |b| && forall i :: 0 <= i < |a| ==> FoldCase(a[i]) == FoldCase(b[i])
  }

  predicate StartsWithDash(s: string) {
    |s| > 0 && s[0] == '-'
  }

  /** The first of `modes` whose raw value equals `arg` ignoring case. */
  function FirstMatch(arg: string, modes: seq<Mode>): (r: Option<Mode>)
    ensures r.Some? ==> r.value in modes && EqualIgnoringCase(r.value.RawValue(), arg)
    ensures r.None? <==> forall m :: m in modes ==> !EqualIgnoringCase(m.RawValue(), arg)
  {
    if modes == [] then None
    else if EqualIgnoringCase(modes[0].RawValue(), arg) then Some(modes[0])
    else FirstMatch(arg, modes[1..])
  }

  /** `parseArgs(args:)`: a first argument that is absent or an option flag is
      a missing mode; one that names no mode is an unknown mode. */
  method ParseArgs(args: seq<string>) returns (r: Result<LaunchOption, ArgumentError>)
    ensures |args| == 0 || StartsWithDash(args[0]) ==> r == Err(MissingMode)
    ensures |args| > 0 && !StartsWithDash(args[0]) ==>
      r == match FirstMatch(args[0], AllModes)
           case None => Err(UnknownMode(args[0]))
           case Some(m) => Ok(InitialOption(m))
  {
    if !(|args| > 0 && !StartsWithDash(args[0])) {
      return Err(MissingMode);
    }
    var modeArg := args[0];
    var mode: Option<Mode> := None;
    for i := 0 to |AllModes|
      invariant mode.None? ==> FirstMatch(modeArg, AllModes) == FirstMatch(modeArg, AllModes[i..])
      invariant mode.Some? ==> mode == FirstMatch(modeArg, AllModes)
    {
      assert AllModes[i..][1..] == AllModes[i + 1..];
      if EqualIgnoringCase(AllModes[i].RawValue(), modeArg) {
        mode := Some(AllModes[i]);
        break;
      }
    }
    if mode.None? {
      return Err(UnknownMode(modeArg));
    }
    return Ok(InitialOption(mode.value));
  }

  /** No two modes have raw values that differ only in case. */
  lemma RawValuesDistinctIgnoringCase(m1: Mode, m2: Mode)
    ensures EqualIgnoringCase(m1.RawValue(), m2.RawValue()) <==> m1 == m2
  {
    var a, b := m1.RawValue(), m2.RawValue();
    if m1 != m2 && |a| == |b| {
      assert FoldCase(a[0]) != FoldCase(b[0]);
    }
  }

  /** Each mode's raw value, in any letter case, parses back to that mode. */
  lemma ParseRawValue(m: Mode, arg: string)
    requires EqualIgnoringCase(arg, m.RawValue())
    ensures FirstMatch(arg, AllModes) == Some(m)
  {
    var r := FirstMatch(arg, AllModes);
    assert m in AllModes;
    assert EqualIgnoringCase(m.RawValue(), arg);
    RawValuesDistinctIgnoringCase(r.value, m);
  }
}
