/**
 * The error value of a command-line application: a message, a numeric code,
 * a severity, and a private flag that records whether the error has already
 * been shown to the user.
 */
module Errors {
  import opened Wrappers

  /** Rust's `i32`. */
  newtype int32 = x: int | -0x8000_0000 <= x < 0x8000_0000

  /** Severity: `Error` stops the application, `Warning` lets it continue. */
  datatype ErrorLevel = Error | Warning

  /** The line `handle` writes to standard error for an error; `pkgName` is the package name fixed at build time. */
  function ErrorLine(pkgName: string, msg: string): string
  {
    pkgName + " has encountered an error: '" + msg + "'"
  }

  /** The line `handle` writes to standard error for a warning. */
  function WarningLine(pkgName: string, msg: string): string
  {
    pkgName + " has encountered a warning: '" + msg + "'"
  }

  /** The two lines `handle` can write are never the same, so the user can tell an error from a warning. */
  lemma ReportLinesDiffer(pkgName: string, msg: string)
    ensures ErrorLine(pkgName, msg) != WarningLine(pkgName, msg)
  {
    var at := |pkgName| + |" has encountered a"|;
    assert ErrorLine(pkgName, msg)[at] == 'n';
    assert WarningLine(pkgName, msg)[at] == ' ';
  }

  class CliError {
    var error: string
    var errorCode: int32
    var errorLevel: ErrorLevel
    var reported: bool

    /** `c` holds the same four field values as this error. */
    predicate Copies(c: CliError)
      reads this, c
    {
      c.error == error && c.errorCode == errorCode && c.errorLevel == errorLevel && c.reported == reported
    }

    /** A new error has not been reported yet. */
    constructor (msg: string, errorCode: int32, errorLevel: ErrorLevel)
      ensures error == msg && this.errorCode == errorCode && this.errorLevel == errorLevel
      ensures !reported
    {
      error := msg;
      this.errorCode := errorCode;
      this.errorLevel := errorLevel;
      reported := false;
    }

    /** The derived `Clone`: a fresh object with the same field values. */
    method Clone() returns (c: CliError)
      ensures fresh(c) && Copies(c)
    {
      c := new CliError(error, errorCode, errorLevel);
      c.reported := reported;
    }

    /** A new warning, already wrapped as a failure. */
    static method Warn<T>(msg: string, errorCode: int32) returns (r: Result<T, CliError>)
      ensures r.Err? && fresh(r.error)
      ensures r.error.error == msg && r.error.errorCode == errorCode
      ensures r.error.errorLevel == ErrorLevel.Warning && !r.error.reported
    {
      var e := new CliError(msg, errorCode, ErrorLevel.Warning);
      r := Err(e);
    }

    /** A new fatal error, already wrapped as a failure. */
    static method Error<T>(msg: string, errorCode: int32) returns (r: Result<T, CliError>)
      ensures r.Err? && fresh(r.error)
      ensures r.error.error == msg && r.error.errorCode == errorCode
      ensures r.error.errorLevel == ErrorLevel.Error && !r.error.reported
    {
      var e := new CliError(msg, errorCode, ErrorLevel.Error);
      r := Err(e);
    }

    /**
     * Reports a fatal error at most once and propagates it; reports a
     * warning on every call and swallows it. `emitted` is the line written
     * to standard error, if any.
     * A fatal error is marked reported and always propagates, as a copy that
     * is already marked; so handling it again (or handling the copy) writes
     * nothing. A warning never propagates and never becomes marked, so every
     * call on a fresh warning writes its line again.
     */
    method Handle(pkgName: string) returns (r: Result<(), CliError>, emitted: Option<string>)
      modifies this`reported
      ensures errorLevel == ErrorLevel.Error ==>
        && reported
        && emitted == (if old(reported) then None else Some(ErrorLine(pkgName, error)))
        && r.Err? && fresh(r.error) && Copies(r.error)
      ensures errorLevel == ErrorLevel.Warning ==>
        && reported == old(reported)
        && emitted == (if reported then None else Some(WarningLine(pkgName, error)))
        && r == Ok(())
    {
      match errorLevel
      case Error =>
        emitted := None;
        if !reported {
          emitted := Some(ErrorLine(pkgName, error));
          reported := true;
        }
        var c := Clone();
        r := Err(c);
      case Warning =>
        emitted := None;
        if !reported {
          emitted := Some(WarningLine(pkgName, error));
        }
        r := Ok(());
    }

    /** Drops the error when its code is `code`; otherwise hands back an unchanged copy. */
    method DismissByCode(code: int32) returns (r: Result<(), CliError>)
      ensures r.Ok? <==> errorCode == code
      ensures r.Err? ==> fresh(r.error) && Copies(r.error)
    {
      if errorCode == code {
        r := Ok(());
      } else {
        var c := Clone();
        r := Err(c);
      }
    }

    /** Drops the error when its code is one of `codes`; otherwise hands back an unchanged copy. */
    method DismissByCodes(codes: seq<int32>) returns (r: Result<(), CliError>)
      ensures r.Ok? <==> errorCode in codes
      ensures r.Err? ==> fresh(r.error) && Copies(r.error)
    {
      if errorCode in codes {
        r := Ok(());
      } else {
        var c := Clone();
        r := Err(c);
      }
    }

    /** Drops the error unconditionally. */
    method Dismiss() returns (r: Result<(), CliError>)
      ensures r == Ok(())
    {
      r := Ok(());
    }
  }
}
