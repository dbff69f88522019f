/** The CUPS printer handle (src/printer.py): a job counter and first-printer discovery. */
module Printing {
  import opened Wrappers
  import opened Strings

  /** One job accepted by CUPS: `printFile(printer, file, title, options)`. */
  datatype Job = Job(printer: string, file: string, title: string, options: seq<(string, string)>)

  /** What `printFile` did: returned a job id, or raised. */
  datatype SubmitOutcome = Accepted(jobId: int) | Raised

  datatype PrintError = SubmitFailed

  /** `cups.Connection()` raising because no CUPS server answers. */
  datatype ConnectError = ServerUnreachable

  /** The eight fixed print options, in the order the dict literal gives them. */
  const Options: seq<(string, string)> := [
    ("StpColorPrecision", "Best"),
    ("ColorModel", "RBG"),
    ("StpBorderless", "True"),
    ("StpImageType", "Photo"),
    ("StpiShrinkOutput", "Expand"),
    ("StpSaturation", "1400"),
    ("StpContrast", "1500"),
    ("StpCyanBalance", "800")
  ]

  /** `"{}_{}".format(count, file_name)`. */
  function JobTitle(count: nat, fileName: string): string {
    NatToString(count) + "_" + fileName
  }

  /** Job titles never collide: the counter and the file name can be read back from a title. */
  lemma JobTitleInjective(a: nat, f: string, b: nat, g: string)
    requires JobTitle(a, f) == JobTitle(b, g)
    ensures a == b && f == g
  {
    assert JobTitle(a, f) == NatToString(a) + ("_" + f);
    assert JobTitle(b, g) == NatToString(b) + ("_" + g);
    CounterThenTailInjective(a, b, "_" + f, "_" + g);
    assert f == ("_" + f)[1..] && g == ("_" + g)[1..];
  }

  /** The i-th job on the connection went to `printer`, titled with counter i, with `options`. */
  ghost predicate NumberedJobs(jobs: seq<Job>, printer: string, options: seq<(string, string)>) {
    forall i :: 0 <= i < |jobs| ==>
      jobs[i].printer == printer && jobs[i].title == JobTitle(i, jobs[i].file) && jobs[i].options == options
  }

  /** A printer's jobs all have different titles. */
  lemma NumberedJobsHaveDistinctTitles(jobs: seq<Job>, printer: string, options: seq<(string, string)>)
    requires NumberedJobs(jobs, printer, options)
    ensures forall i, j :: 0 <= i < j < |jobs| ==> jobs[i].title != jobs[j].title
  {
    forall i, j | 0 <= i < j < |jobs| ensures jobs[i].title != jobs[j].title {
      if jobs[i].title == jobs[j].title {
        JobTitleInjective(i, jobs[i].file, j, jobs[j].file);
      }
    }
  }

  /** A `cups.Connection()`: the printers it reports and the jobs submitted through it. */
  class Connection {
    const printers: seq<string>
    var jobs: seq<Job>

    constructor(printers: seq<string>)
      ensures this.printers == printers && jobs == []
    {
      this.printers := printers;
      jobs := [];
    }
  }

  class Printer {
    const name: string
    const conn: Connection
    var count: nat

    /** Every job on the connection came from this handle, numbered from 0. */
    ghost predicate Valid()
      reads this, conn
    {
      |conn.jobs| == count && NumberedJobs(conn.jobs, name, Options)
    }

    constructor(name: string, conn: Connection)
      requires conn.jobs == []
      ensures Valid()
      ensures this.name == name && this.conn == conn && count == 0
    {
      this.name := name;
      this.conn := conn;
      count := 0;
    }

    /**
     * `print_file`: submit one job titled with the current count, then count it.
     * When `printFile` raises, the count and the job list stay as they were.
     */
    method PrintFile(fileName: string, outcome: SubmitOutcome) returns (r: Result<int, PrintError>)
      requires Valid()
      modifies this`count, conn`jobs
      ensures Valid()
      ensures outcome.Accepted? ==>
        r == Ok(outcome.jobId) && count == old(count) + 1 &&
        conn.jobs == old(conn.jobs) + [Job(name, fileName, JobTitle(old(count), fileName), Options)]
      ensures outcome.Raised? ==>
        r == Err(SubmitFailed) && count == old(count) && conn.jobs == old(conn.jobs)
    {
      match outcome {
        case Raised =>
          return Err(SubmitFailed);
        case Accepted(job) =>
          conn.jobs := conn.jobs + [Job(name, fileName, JobTitle(count, fileName), Options)];
          count := count + 1;
          return Ok(job);
      }
    }
  }

  /** `getPrinters()` order decides: the first printer, or None when there is none. */
  function FirstPrinter(printers: seq<string>): (r: Option<string>)
    ensures r.None? <==> printers == []
    ensures r.Some? ==> r.value == printers[0] && r.value in printers
  {
    if |printers| == 0 then None else Some(printers[0])
  }

  /**
   * `get_printer()`: open a connection and wrap its first printer, if any.
   * `server` is what the CUPS server reports, or None when
   * `cups.Connection()` cannot reach one and raises.
   */
  method GetPrinter(server: Option<seq<string>>) returns (r: Result<Printer?, ConnectError>)
    ensures r.Err? <==> server.None?
    ensures r.Ok? ==> ((r.value == null) <==> server.value == [])
    ensures r.Ok? && r.value != null ==> (fresh(r.value) && fresh(r.value.conn) && r.value.Valid() &&
      Some(r.value.name) == FirstPrinter(server.value) && r.value.count == 0 && r.value.conn.printers == server.value)
  {
    if server.None? {
      return Err(ServerUnreachable);
    }
    var conn := new Connection(server.value);
    if |conn.printers| == 0 {
      return Ok(null);
    }
    var p := new Printer(conn.printers[0], conn);
    r := Ok(p);
  }
}
