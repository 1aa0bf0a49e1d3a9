/**
 * The command-line tokenizer `Arguments`: one left-to-right pass over the
 * arguments that sorts each into a long option (`--name`), a short option
 * (`-x`), a bundle of short options (`-abc`) or a naked value, and files the
 * runs of naked values under the option that preceded them.
 */
module Tokenizer {
  import opened Wrappers
  import opened Errors

  /**
   * The result of tokenizing: every option token in order (`args`), the run
   * of naked values filed under each option (`values`, the empty key for a
   * run before any option), and the run of naked values after the last
   * option boundary (`nakedValues`).
   */
  datatype Arguments = Arguments(args: seq<string>, values: map<string, seq<string>>, nakedValues: seq<string>)

  predicate StartsWith(s: string, prefix: string)
  {
    |prefix| <= |s| && s[..|prefix|] == prefix
  }

  /** A token that starts with two dashes, `--` itself included. */
  predicate IsLong(t: string)
  {
    StartsWith(t, "--")
  }

  /** A token that starts with a dash: anything but a naked value. */
  predicate IsDash(t: string)
  {
    StartsWith(t, "-")
  }

  /** The last element of `s`, or `default` when `s` is empty. */
  function LastOr(s: seq<string>, default: string): string
  {
    if s == [] then default else s[|s| - 1]
  }

  /** The short options a bundle spells: `-c` for every character `c` of `t` that is not a dash, in order. */
  function ShortOptions(t: string): seq<string>
  {
    if t == [] then []
    else
      var c := t[|t| - 1];
      ShortOptions(t[..|t| - 1]) + (if c != '-' then [['-', c]] else [])
  }

  /** Files the pending run of naked values under the cursor; a map insert, so it replaces an earlier run. */
  function Flush(values: map<string, seq<string>>, lastArg: string, naked: seq<string>): map<string, seq<string>>
  {
    if |naked| != 0 then values[lastArg := naked] else values
  }

  /** The four variables of the tokenizing loop. */
  datatype ScanState = ScanState(args: seq<string>, values: map<string, seq<string>>, naked: seq<string>, lastArg: string)

  const Start := ScanState([], map[], [], "")

  /** One iteration of the tokenizing loop. */
  function Step(st: ScanState, arg: string): ScanState
  {
    if IsLong(arg) then
      ScanState(st.args + [arg], Flush(st.values, st.lastArg, st.naked), [], arg)
    else if IsDash(arg) then
      var values := Flush(st.values, st.lastArg, st.naked);
      if |arg| == 2 then
        ScanState(st.args + [arg], values, [], arg)
      else
        var bundle := ShortOptions(arg);
        ScanState(st.args + bundle, values, [], LastOr(bundle, st.lastArg))
    else
      ScanState(st.args, st.values, st.naked + [arg], st.lastArg)
  }

  /** The loop state after the tokens `toks`. */
  function Scanned(toks: seq<string>): ScanState
  {
    if toks == [] then Start else Step(Scanned(toks[..|toks| - 1]), toks[|toks| - 1])
  }

  /** What `Arguments::new` builds from the full argument vector, program name first. */
  function Tokenize(argv: seq<string>): Arguments
    requires |argv| >= 1
  {
    var st := Scanned(argv[1..]);
    Arguments(st.args, Flush(st.values, st.lastArg, st.naked), st.naked)
  }

  /** `Arguments::new`: the tokenizing loop, over the arguments after the program name. */
  method New(argv: seq<string>) returns (a: Arguments)
    requires |argv| >= 1
    ensures a == Tokenize(argv)
  {
    var args: seq<string> := [];
    var nakedValues: seq<string> := [];
    var values: map<string, seq<string>> := map[];
    var lastArg := "";
    var toks := argv[1..];
    var i := 0;
    while i < |toks|
      invariant 0 <= i <= |toks|
      invariant ScanState(args, values, nakedValues, lastArg) == Scanned(toks[..i])
    {
      var arg := toks[i];
      ScannedPrefixSnoc(toks, i);
      if IsLong(arg) {
        if |nakedValues| != 0 {
          values := values[lastArg := nakedValues];
          nakedValues := [];
        }
        args := args + [arg];
        lastArg := arg;
      } else if IsDash(arg) {
        if |nakedValues| != 0 {
          values := values[lastArg := nakedValues];
          nakedValues := [];
        }
        if |arg| == 2 {
          args := args + [arg];
          lastArg := arg;
        } else {
          args, lastArg := PushShortOptions(args, lastArg, arg);
        }
      } else {
        nakedValues := nakedValues + [arg];
      }
      i := i + 1;
    }
    assert toks[..i] == toks;
    if |nakedValues| != 0 {
      values := values[lastArg := nakedValues];
    }
    a := Arguments(args, values, nakedValues);
  }

  lemma ScannedPrefixSnoc(toks: seq<string>, i: nat)
    requires i < |toks|
    ensures Scanned(toks[..i + 1]) == Step(Scanned(toks[..i]), toks[i])
  {
    assert toks[..i + 1][..i] == toks[..i];
  }

  /** The inner loop of `Arguments::new` over a bundle: pushes `-c` for each character that is not a dash. */
  method PushShortOptions(args0: seq<string>, lastArg0: string, arg: string) returns (args: seq<string>, lastArg: string)
    ensures args == args0 + ShortOptions(arg)
    ensures lastArg == LastOr(ShortOptions(arg), lastArg0)
  {
    args, lastArg := args0, lastArg0;
    var j := 0;
    while j < |arg|
      invariant 0 <= j <= |arg|
      invariant args == args0 + ShortOptions(arg[..j])
      invariant lastArg == LastOr(ShortOptions(arg[..j]), lastArg0)
    {
      var c := arg[j];
      assert arg[..j + 1][..j] == arg[..j];
      if c != '-' {
        var currentArg := "-" + [c];
        assert currentArg == ['-', c];
        args := args + [currentArg];
        lastArg := currentArg;
      }
      j := j + 1;
    }
    assert arg[..j] == arg;
  }

  /** `get_single`: the first value filed under `key`, if there is one. */
  function GetSingle(a: Arguments, key: string): (r: Option<string>)
    ensures r.Some? <==> key in a.values && a.values[key] != []
    ensures r.Some? ==> r.value == a.values[key][0]
  {
    if key in a.values then
      var s := a.values[key];
      if |s| > 0 then Some(s[0]) else None
    else
      None
  }

  /** `check_arg`: whether `arg` was given as an option. */
  predicate CheckArg(a: Arguments, arg: string)
  {
    arg in a.args
  }

  /**
   * `get_passed`: the first value of option `arg`, parsed. `parse` stands for
   * the target type's `FromStr`. Nothing is returned for an option that was
   * not given, even when values are filed under its name.
   */
  function GetPassed<T>(a: Arguments, arg: string, parse: string -> Option<T>): (r: Option<T>)
    ensures !CheckArg(a, arg) ==> r == None
    ensures r.Some? <==> CheckArg(a, arg) && GetSingle(a, arg).Some? && parse(GetSingle(a, arg).value).Some?
    ensures r.Some? ==> r == parse(GetSingle(a, arg).value)
  {
    if !CheckArg(a, arg) then None
    else
      match GetSingle(a, arg)
      case Some(s) => (match parse(s) case Some(v) => Some(v) case None => None)
      case None => None
  }

  function NoOptionMessage(arg: string): string
  {
    "No '" + arg + "' option passed"
  }

  function CannotParseMessage(arg: string): string
  {
    "Cannot parse argument to '" + arg + "'"
  }

  function NoArgumentMessage(arg: string): string
  {
    "No argument passed to '" + arg + "'"
  }

  /**
   * `get_passed_checked`: succeeds exactly when `get_passed` does, with the
   * same value; otherwise a new, unreported fatal error with code 1 whose
   * message names the cause: option not given, no value, or a value that
   * does not parse.
   */
  method GetPassedChecked<T>(a: Arguments, arg: string, parse: string -> Option<T>) returns (r: Result<T, CliError>)
    ensures r.Ok? <==> GetPassed(a, arg, parse).Some?
    ensures r.Ok? ==> GetPassed(a, arg, parse) == Some(r.value)
    ensures r.Err? ==> fresh(r.error) && r.error.errorCode == 1 && r.error.errorLevel == ErrorLevel.Error && !r.error.reported
    ensures !CheckArg(a, arg) ==> r.Err? && r.error.error == NoOptionMessage(arg)
    ensures CheckArg(a, arg) && GetSingle(a, arg).None? ==> r.Err? && r.error.error == NoArgumentMessage(arg)
    ensures CheckArg(a, arg) && GetSingle(a, arg).Some? && parse(GetSingle(a, arg).value).None? ==>
              r.Err? && r.error.error == CannotParseMessage(arg)
  {
    if !CheckArg(a, arg) {
      r := CliError.Error(NoOptionMessage(arg), 1);
      return;
    }
    match GetSingle(a, arg)
    case Some(s) =>
      match parse(s) {
        case Some(v) =>
          r := Ok(v);
        case None =>
          r := CliError.Error(CannotParseMessage(arg), 1);
      }
    case None =>
      r := CliError.Error(NoArgumentMessage(arg), 1);
  }
}
