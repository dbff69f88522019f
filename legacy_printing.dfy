/** The printer handle of the earlier revision (printer.py): five options, no job id returned. */
module LegacyPrinting {
  import opened Wrappers
  import opened Printing

  /** The five fixed print options of this revision. */
  const LegacyOptions: seq<(string, string)> := [
    ("StpColorPrecision", "Best"),
    ("ColorModel", "RBG"),
    ("StpBorderless", "True"),
    ("StpImageType", "Photo"),
    ("StpiShrinkOutput", "Expand")
  ]

  class LegacyPrinter {
    /** `_printer`: the destination name. */
    const printer: string
    const conn: Connection
    var count: nat

    ghost predicate Valid()
      reads this, conn
    {
      |conn.jobs| == count && NumberedJobs(conn.jobs, printer, LegacyOptions)
    }

    constructor(printer: string, conn: Connection)
      requires conn.jobs == []
      ensures Valid()
      ensures this.printer == printer && this.conn == conn && count == 0
    {
      this.printer := printer;
      this.conn := conn;
      count := 0;
    }

    /** `print_file`: as the current revision, except that nothing is returned. */
    method PrintFile(fileName: string, outcome: SubmitOutcome) returns (r: Result<(), PrintError>)
      requires Valid()
      modifies this`count, conn`jobs
      ensures Valid()
      ensures outcome.Accepted? ==>
        r == Ok(()) && count == old(count) + 1 &&
        conn.jobs == old(conn.jobs) + [Job(printer, fileName, JobTitle(old(count), fileName), LegacyOptions)]
      ensures outcome.Raised? ==>
        r == Err(SubmitFailed) && count == old(count) && conn.jobs == old(conn.jobs)
    {
      if outcome.Raised? {
        return Err(SubmitFailed);
      }
      conn.jobs := conn.jobs + [Job(printer, fileName, JobTitle(count, fileName), LegacyOptions)];
      count := count + 1;
      r := Ok(());
    }
  }

  /** `get_printer()` of this revision; `server` as for the current one. */
  method GetPrinter(server: Option<seq<string>>) returns (r: Result<LegacyPrinter?, ConnectError>)
    ensures r.Err? <==> server.None?
    ensures r.Ok? ==> ((r.value == null) <==> server.value == [])
    ensures r.Ok? && r.value != null ==> (fresh(r.value) && fresh(r.value.conn) && r.value.Valid() &&
      Some(r.value.printer) == FirstPrinter(server.value) && r.value.count == 0 && r.value.conn.printers == server.value)
  {
    if server.None? {
      return Err(ServerUnreachable);
    }
    var conn := new Connection(server.value);
    if |conn.printers| == 0 {
      return Ok(null);
    }
    var p := new LegacyPrinter(conn.printers[0], conn);
    r := Ok(p);
  }
}
