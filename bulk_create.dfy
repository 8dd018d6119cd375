/**
 * `ZoomAPI.bulk_create_meetings` (zoom_api_helper/v2.py) on in-memory rows:
 * build the header table, turn the accepted rows into requests, stop there on
 * a dry run, else derive the output path, create every meeting, write each
 * outcome back onto the rows and write the rows to the CSV file.
 */
module BulkCreate {
  import opened Wrappers
  import opened Values
  import opened Constants
  import opened HeaderTable
  import opened MeetingRequests
  import opened CreateMeeting
  import opened Reconciliation
  import opened CsvOutput

  /**
   * What one run produced: the header table and the requests (what a dry run
   * prints), the row each request came from, the requests for which
   * `create_meeting` was called, where the CSV goes, what reached the file,
   * and the exception the call raised, if any.
   */
  datatype BulkReport = BulkReport(
    table: Table,
    requests: seq<Request>,
    origin: seq<nat>,
    dispatched: seq<Request>,
    target: Option<OutTarget>,
    written: Option<CsvFile>,
    error: Option<BulkFailure>)

  /** `out_file`: a `Path`, or a plain string, which the signature also admits. */
  datatype OutFile = PathArg(path: string) | StrArg(name: string)

  /** Where the CSV goes: the path given, or `{stem}.out.csv` beside the Excel file. */
  datatype OutTarget = Given(path: string) | BesideExcel(excelFile: string)

  /** The exceptions `bulk_create_meetings` raises itself (not those of the tasks, which are logged). */
  datatype BulkFailure =
    | NoOutputPath              // `Path(None)`: neither `out_file` nor `excel_file` (TypeError)
    | NotAPath                  // `out_file.absolute()` on a `str` (AttributeError)
    | BadMaxThreads             // `ThreadPoolExecutor(max_workers=n)` with n <= 0 (ValueError)
    | CsvWrite(e: WriteError)   // `DictWriter.writerows` (ValueError)
    | DryRunUnserialisable      // the dry run's `json.dumps` on a `Meeting` member (TypeError)

  /** No value of `req` is a `Meeting` member, which `CustomEncoder` cannot encode (it converts only datetimes). */
  predicate Serialisable(req: Request) {
    forall k :: k in req ==> !req[k].MeetingType?
  }

  /**
   * Line 211, as written: the dump of the requests a dry run prints, or the
   * `TypeError` of `json.dumps` when a request holds a `Meeting` member.
   */
  function DryRunDump(requests: seq<Request>): (r: Result<seq<Request>, BulkFailure>)
    ensures r.Ok? <==> forall j :: 0 <= j < |requests| ==> Serialisable(requests[j])
    ensures r.Ok? ==> r.value == requests
    ensures r.Err? ==> r.error == DryRunUnserialisable
  {
    if requests == [] then Ok(requests)
    else
      var n := |requests| - 1;
      var prev := DryRunDump(requests[..n]);
      assert forall j :: 0 <= j < n ==> requests[..n][j] == requests[j];
      if prev.Ok? && Serialisable(requests[n]) then Ok(requests) else Err(DryRunUnserialisable)
  }

  /** `json.dumps` of one value with an encoder that also turns a `Meeting` member into its code. */
  function EncodeValue(v: Value): (e: Value)
    ensures !e.MeetingType?
    ensures v.MeetingType? ==> e == Int(Code(v.kind))
    ensures !v.MeetingType? ==> e == v
  {
    if v.MeetingType? then Int(Code(v.kind)) else v
  }

  /** The intended dump: a `Meeting` member is printed as its code, so the dry run never raises. */
  function DryRunDumpFixed(requests: seq<Request>): (r: seq<Request>)
    ensures |r| == |requests|
    ensures forall j :: 0 <= j < |r| ==> Serialisable(r[j]) && r[j].Keys == requests[j].Keys
    ensures forall j, k :: 0 <= j < |r| && k in requests[j] ==> r[j][k] == EncodeValue(requests[j][k])
  {
    seq(|requests|, j requires 0 <= j < |requests| => map k | k in requests[j] :: EncodeValue(requests[j][k]))
  }

  /** Where the as-written dump succeeds, it prints what the intended one prints. */
  lemma DryRunDumpsAgree(requests: seq<Request>)
    requires DryRunDump(requests).Ok?
    ensures DryRunDump(requests).value == DryRunDumpFixed(requests)
  {
    var fixed := DryRunDumpFixed(requests);
    forall j | 0 <= j < |requests| ensures fixed[j] == requests[j] {
      assert Serialisable(requests[j]);
    }
  }

  /**
   * As written, a dry run over a request whose `type` is `Meeting.SCHEDULED`,
   * the one kind of truthy `type` that `create_meeting` accepts, raises.
   */
  lemma DryRunRejectsMeetingType()
    ensures DryRunDump([map["type" := MeetingType(Scheduled), "timezone" := Str("UTC")]]) == Err(DryRunUnserialisable)
    ensures DryRunDumpFixed([map["type" := MeetingType(Scheduled), "timezone" := Str("UTC")]])[0]["type"] == Int(2)
  {
    var req: Request := map["type" := MeetingType(Scheduled), "timezone" := Str("UTC")];
    assert "type" in req && req["type"].MeetingType?;
    assert !Serialisable(req);
  }

  /** Lines 216-220, as written: the output path, or the error of deriving or logging it. */
  function OutputPath(outFile: Option<OutFile>, excelFile: Option<string>): (r: Result<OutTarget, BulkFailure>)
    ensures r.Ok? <==> (outFile.None? && excelFile.Some?) || (outFile.Some? && outFile.value.PathArg?)
    ensures outFile.None? && excelFile.Some? ==> r == Ok(BesideExcel(excelFile.value))
    ensures outFile.Some? && outFile.value.PathArg? ==> r == Ok(Given(outFile.value.path))
    ensures r.Err? ==> r.error == if outFile.None? then NoOutputPath else NotAPath
  {
    match outFile
    case None => if excelFile.Some? then Ok(BesideExcel(excelFile.value)) else Err(NoOutputPath)
    case Some(PathArg(p)) => Ok(Given(p))
    case Some(StrArg(_)) => Err(NotAPath)
  }

  /** The intended output path: an `out_file` given as a string is taken as a path too. */
  function OutputPathFixed(outFile: Option<OutFile>, excelFile: Option<string>): (r: Result<OutTarget, BulkFailure>)
    ensures r.Ok? <==> outFile.Some? || excelFile.Some?
    ensures outFile.Some? ==> r == Ok(Given(if outFile.value.PathArg? then outFile.value.path else outFile.value.name))
    ensures outFile.None? && excelFile.Some? ==> r == Ok(BesideExcel(excelFile.value))
  {
    match outFile
    case None => if excelFile.Some? then Ok(BesideExcel(excelFile.value)) else Err(NoOutputPath)
    case Some(PathArg(p)) => Ok(Given(p))
    case Some(StrArg(name)) => Ok(Given(name))
  }

  /** The two differ only on an `out_file` given as a string. */
  lemma OutputPathsAgree(outFile: Option<OutFile>, excelFile: Option<string>)
    ensures OutputPath(outFile, excelFile) == OutputPathFixed(outFile, excelFile) <==> !(outFile.Some? && outFile.value.StrArg?)
  {
  }

  /** As written, `out_file="meetings.out.csv"` raises before any meeting is created. */
  lemma StrOutFileRejected()
    ensures OutputPath(Some(StrArg("meetings.out.csv")), None) == Err(NotAPath)
    ensures OutputPathFixed(Some(StrArg("meetings.out.csv")), None) == Ok(Given("meetings.out.csv"))
  {
  }

  /**
   * Lines 216-229: what is checked between the dry-run exit and the first
   * creation, in order: the output path, then the thread pool's size
   * (`maxThreads == None` stands for `max_threads=None`, the pool's default).
   */
  function Setup(outFile: Option<OutFile>, excelFile: Option<string>, maxThreads: Option<int>): (r: Result<OutTarget, BulkFailure>)
    ensures OutputPath(outFile, excelFile).Err? ==> r == OutputPath(outFile, excelFile)
    ensures OutputPath(outFile, excelFile).Ok? ==>
              r == if maxThreads.Some? && maxThreads.value <= 0 then Err(BadMaxThreads) else OutputPath(outFile, excelFile)
  {
    match OutputPath(outFile, excelFile)
    case Err(e) => Err(e)
    case Ok(target) => if maxThreads.Some? && maxThreads.value <= 0 then Err(BadMaxThreads) else Ok(target)
  }

  /** The remote Create Meeting endpoint, request by request: `posts(j, call)` answers the j-th task's POST. */
  type Posts = (nat, MeetingCall) -> PostReply

  /** The POST of the j-th task. */
  function PostOf(posts: Posts, j: nat): Post {
    call => posts(j, call)
  }

  /** The outcome of each creation, request by request. */
  function Outcomes(reqs: seq<Request>, emailToId: map<Value, Value>, posts: Posts): (o: seq<Outcome>)
    ensures |o| == |reqs|
    ensures forall i :: 0 <= i < |reqs| ==> o[i] == CreateOutcome(reqs[i], emailToId, PostOf(posts, i))
  {
    seq(|reqs|, i requires 0 <= i < |reqs| => CreateOutcome(reqs[i], emailToId, PostOf(posts, i)))
  }

  /**
   * Lines 222-244: create every meeting, then reconcile in an arbitrary
   * completion order.  Without rejected rows, `origin` is the identity.
   */
  method Dispatch(rows: array<Row>, requests: seq<Request>, origin: seq<nat>, update: Option<UpdateRow>,
                  emailToId: map<Value, Value>, posts: Posts)
    requires |requests| == |origin| <= rows.Length
    requires forall j :: 0 <= j < |origin| ==> origin[j] < rows.Length
    requires forall j, j' :: 0 <= j < j' < |origin| ==> origin[j] < origin[j']
    modifies rows
    ensures rows[..] == Reconciled(old(rows[..]), Outcomes(requests, emailToId, posts), update)
    ensures (forall j :: 0 <= j < |origin| ==> origin[j] == j) ==>
              rows[..] == ReconciledByOrigin(old(rows[..]), origin, Outcomes(requests, emailToId, posts), update)
  {
    var outcomes := Outcomes(requests, emailToId, posts);
    ghost var identity: seq<nat> := seq(|outcomes|, (i: nat) => i);
    forall i | 0 <= i < |outcomes| ensures i in identity {
      assert identity[i] == i;
    }
    assert IsCompletionOrder(identity, |outcomes|);
    var order :| IsCompletionOrder(order, |outcomes|);
    ghost var before := rows[..];
    Reconcile(rows, outcomes, order, update);
    if forall j :: 0 <= j < |origin| ==> origin[j] == j {
      ReconciledAgreesWithoutRejections(before, origin, outcomes, update);
    }
  }

  /**
   * `headers` is `rows[0].keys()` in insertion order; `allowOrder` is the
   * iteration order of `CREATE_MEETING_KWARGS` in this process.  The
   * completion order of the futures is chosen arbitrarily inside.
   */
  method BulkCreateMeetings(colHeaderToKwarg: map<string, string>, rows: array<Row>, headers: seq<string>,
                            allowOrder: seq<string>, excelFile: Option<string>, maxThreads: Option<int>,
                            process: Option<ProcessRow>, update: Option<UpdateRow>, outFile: Option<OutFile>,
                            defaultTimezone: Value, dryRun: bool, emailToId: map<Value, Value>, posts: Posts)
    returns (report: BulkReport)
    requires rows.Length > 0
    requires forall i, j :: 0 <= i < j < |headers| ==> headers[i] != headers[j]
    requires forall h :: h in headers <==> h in rows[0]
    requires Enumerates(allowOrder, CreateMeetingKwargs)
    modifies rows
    ensures Describes(CreateMeetingKwargs, report.table, colHeaderToKwarg, headers, allowOrder)
    ensures RequestsFor(report.requests, report.origin, report.table, old(rows[..]), process, defaultTimezone)
    ensures |report.requests| <= rows.Length
    // a dry run, or a failed setup, creates nothing and writes nothing
    ensures dryRun || Setup(outFile, excelFile, maxThreads).Err? ==>
              && report.dispatched == [] && report.target == None && report.written == None
              && rows[..] == old(rows[..])
    ensures dryRun ==> report.error == if DryRunDump(report.requests).Err? then Some(DryRunDump(report.requests).error) else None
    ensures !dryRun && Setup(outFile, excelFile, maxThreads).Err? ==>
              report.error == Some(Setup(outFile, excelFile, maxThreads).error)
    // otherwise every meeting is requested, the rows are reconciled and then written
    ensures !dryRun && Setup(outFile, excelFile, maxThreads).Ok? ==>
              && report.dispatched == report.requests
              && report.target == Some(Setup(outFile, excelFile, maxThreads).value)
              && rows[..] == Reconciled(old(rows[..]), Outcomes(report.requests, emailToId, posts), update)
              && report.written == Some(WriteToCsv(rows[..]).0)
              && report.error == if WriteToCsv(rows[..]).1.Some? then Some(CsvWrite(WriteToCsv(rows[..]).1.value)) else None
    ensures !dryRun && Setup(outFile, excelFile, maxThreads).Ok? && process.None? ==>
              rows[..] == ReconciledByOrigin(old(rows[..]), report.origin, Outcomes(report.requests, emailToId, posts), update)
  {
    var table := BuildHeaderTable(CreateMeetingKwargs, colHeaderToKwarg, headers, allowOrder);
    var requests, origin := BuildRequests(table, rows[..], process, defaultTimezone);
    if dryRun {
      var dump := DryRunDump(requests);
      var error := if dump.Err? then Some(dump.error) else None;
      return BulkReport(table, requests, origin, [], None, None, error);
    }
    var setup := Setup(outFile, excelFile, maxThreads);
    if setup.Err? {
      return BulkReport(table, requests, origin, [], None, None, Some(setup.error));
    }
    Dispatch(rows, requests, origin, update, emailToId, posts);
    var (file, failure) := WriteToCsv(rows[..]);
    var error := if failure.Some? then Some(CsvWrite(failure.value)) else None;
    report := BulkReport(table, requests, origin, requests, Some(setup.value), Some(file), error);
  }
}
