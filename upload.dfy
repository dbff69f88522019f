/**
 * The upload decision (src/upload.py). The connectivity thread is not
 * modelled: `connectionActive` is whatever it last stored.
 */
module Upload {
  import opened Wrappers

  /** What `subprocess.run([...], timeout=10)` did. */
  datatype ScpOutcome = Exited(returnCode: int) | TimedOut

  /** One `subprocess.run(argv, timeout=...)`. */
  datatype ScpCall = ScpCall(argv: seq<string>, timeout: int)

  /** The line `upload_file` logs at info level. */
  datatype UploadLog = NotConfigured | SkippedOffline | Uploaded | UploadFailed

  /**
   * What `upload_file` lets through: `subprocess.TimeoutExpired`, or the
   * `TypeError` `subprocess.run` raises before starting anything when the
   * argument list holds `None`.
   */
  datatype UploadError = Timeout | NoneInArgv

  const ScpTimeout: int := 10

  /** `InternetChecker`: the last reachability result the background probe stored. */
  class InternetChecker {
    var connectionActive: bool

    constructor()
      ensures !connectionActive
    {
      connectionActive := false;
    }
  }

  /** `["scp", "-i", keyfile, filepath, scpdst]`. */
  function ScpArgv(keyfile: string, filePath: string, scpDst: string): seq<string> {
    ["scp", "-i", keyfile, filePath, scpDst]
  }

  /** Python truthiness of an optional string: neither `None` nor `""`. */
  predicate Truthy(v: Option<string>) {
    v.Some? && v.value != ""
  }

  /** The test of `upload_file`: at least one of key file and destination is set. */
  predicate Configured(keyfile: Option<string>, scpDst: Option<string>) {
    Truthy(keyfile) || Truthy(scpDst)
  }

  class Uploader {
    const keyfile: Option<string>
    const scpDst: Option<string>
    const checker: InternetChecker

    constructor(keyfile: Option<string>, scpDst: Option<string>)
      ensures this.keyfile == keyfile && this.scpDst == scpDst
      ensures fresh(checker) && !checker.connectionActive
    {
      this.keyfile := keyfile;
      this.scpDst := scpDst;
      checker := new InternetChecker();
    }

    /**
     * `upload_file`: nothing happens unless at least one of key file and
     * destination is set; offline, the upload is skipped; online, the other
     * one may still be `None`, and then `subprocess.run` raises `TypeError`
     * without starting scp. Otherwise exactly one scp run with a 10 s limit:
     * a non-zero exit is logged, a timeout raised. `outcome` is what that run
     * would do; `call` is the run made, if any.
     */
    method UploadFile(filePath: string, outcome: ScpOutcome) returns (call: Option<ScpCall>, r: Result<UploadLog, UploadError>)
      ensures call.Some? <==>
        Configured(keyfile, scpDst) && checker.connectionActive && keyfile.Some? && scpDst.Some?
      ensures call.Some? ==> call.value == ScpCall(ScpArgv(keyfile.value, filePath, scpDst.value), ScpTimeout)
      ensures r == Ok(NotConfigured) <==> !Configured(keyfile, scpDst)
      ensures r == Ok(SkippedOffline) <==> Configured(keyfile, scpDst) && !checker.connectionActive
      ensures r == Err(NoneInArgv) <==>
        Configured(keyfile, scpDst) && checker.connectionActive && (keyfile.None? || scpDst.None?)
      ensures r == Ok(Uploaded) <==> call.Some? && outcome == Exited(0)
      ensures r == Ok(UploadFailed) <==> call.Some? && outcome.Exited? && outcome.returnCode != 0
      ensures r == Err(Timeout) <==> call.Some? && outcome.TimedOut?
    {
      if !Truthy(keyfile) && !Truthy(scpDst) {
        return None, Ok(NotConfigured);
      }
      if checker.connectionActive {
        if keyfile.None? || scpDst.None? {
          return None, Err(NoneInArgv);
        }
        call := Some(ScpCall(["scp", "-i", keyfile.value, filePath, scpDst.value], 10));
        match outcome {
          case TimedOut =>
            r := Err(Timeout);
          case Exited(code) =>
            if code == 0 {
              r := Ok(Uploaded);
            } else {
              r := Ok(UploadFailed);
            }
        }
      } else {
        call, r := None, Ok(SkippedOffline);
      }
    }
  }
}
