/** server/taskIngest.go: the `ingest` task, which imports the billing data
    of one bill repository and plans its next import. The database, the S3
    import, the clock and the random draw are foreign: their results arrive
    as parameters. */
module TaskIngest {
  import opened Common
  import opened Strings
  import opened Calendar

  const ArgumentsError: string :=
    "taskIngest requires two integer arguments or a Master Trackit Account (master-email)"

  /** The minutes between two imports, and the width of the window around
      that interval in which the next one is placed. */
  const UpdateIntervalMinutes: int := 6 * 60
  const UpdateIntervalWindow: int := 2 * 60

  const NsPerMinute: int := 60 * NsPerSecond

  /** The fields of a bill repository the task reads or writes. */
  datatype BillRepository = BillRepository(
    id: int,
    awsAccountId: int,
    bucket: string,
    prefix: string,
    error: string,
    lastImportedManifest: Time,
    nextUpdate: Time)

  /** The zero value a lookup returns with its error. */
  const NoRepository: BillRepository :=
    BillRepository(0, 0, "", "", "", Time(0, 0), Time(0, 0))

  /** The error `strconv.Atoi` returns for a string it refuses. */
  function AtoiError(s: string): string
  {
    "strconv.Atoi: parsing \"" + s + "\": " +
    (if IsDigits(s) || (|s| >= 1 && (s[0] == '+' || s[0] == '-') && IsDigits(s[1..]))
     then "value out of range" else "invalid syntax")
  }

  /** `taskIngest`: the (account, repository) pair to ingest. With a master
      account configured the pair is (0, 0), whatever the arguments;
      otherwise exactly two integer arguments are required. */
  function IngestTarget(masterEmail: string, args: seq<string>): (r: Result<(int, int)>)
    ensures masterEmail != "" ==> r == Ok((0, 0))
    ensures masterEmail == "" && |args| != 2 ==> r == Err(ArgumentsError)
    ensures masterEmail == "" && |args| == 2 ==>
              (r.Ok? <==> Atoi(args[0]).Some? && Atoi(args[1]).Some?)
    ensures masterEmail == "" && r.Ok? ==>
              |args| == 2 && r.value == (Atoi(args[0]).value, Atoi(args[1]).value)
  {
    if masterEmail != "" then Ok((0, 0))
    else if |args| != 2 then Err(ArgumentsError)
    else if Atoi(args[0]).None? then Err(AtoiError(args[0]))
    else if Atoi(args[1]).None? then Err(AtoiError(args[1]))
    else Ok((Atoi(args[0]).value, Atoi(args[1]).value))
  }

  /** Any pair of int64 ids, written out in decimal, is ingested as given. */
  lemma IngestTargetOfPrintedIds(aa: int, br: int)
    requires MinInt64 <= aa <= MaxInt64 && MinInt64 <= br <= MaxInt64
    ensures IngestTarget("", [FormatInt(aa, 0), FormatInt(br, 0)]) == Ok((aa, br))
  {
    AtoiOfFormatInt(aa);
    AtoiOfFormatInt(br);
  }

  /** The database lookups `getBillRespository` uses, as their results:
      the master user by email, a user's accounts, an account's
      repositories, an account by id, and a repository of an account by id. */
  datatype Lookups = Lookups(
    masterUser: Result<int>,
    accountsOf: int -> Result<seq<int>>,
    repositoriesOf: int -> Result<seq<BillRepository>>,
    accountWithId: int -> Result<int>,
    repositoryById: (int, int) -> Result<BillRepository>)

  /** `getBillRespository`: with a zero id, the first repository of the
      first account of the master user; otherwise the repository with that
      id of the account with that id. A failed lookup gives its error; a
      master user without accounts, or whose first account has no
      repositories, gives the zero repository and no error. */
  function GetBillRepository(aaId: int, brId: int, db: Lookups): (BillRepository, Option<string>)
  {
    if aaId == 0 || brId == 0 then
      if db.masterUser.Err? then (NoRepository, Some(db.masterUser.msg))
      else
        var aas := db.accountsOf(db.masterUser.value);
        if aas.Err? then (NoRepository, Some(aas.msg))
        else if |aas.value| == 0 then (NoRepository, None)
        else
          var brs := db.repositoriesOf(aas.value[0]);
          if brs.Err? then (NoRepository, Some(brs.msg))
          else if |brs.value| == 0 then (NoRepository, None)
          else (brs.value[0], None)
    else
      var aa := db.accountWithId(aaId);
      if aa.Err? then (NoRepository, Some(aa.msg))
      else
        var br := db.repositoryById(aa.value, brId);
        if br.Err? then (NoRepository, Some(br.msg)) else (br.value, None)
  }

  /** The path taken depends only on whether an id is zero: with a zero id
      the ids themselves are never consulted, and otherwise the master user
      and its accounts are never consulted. */
  lemma BillRepositoryPaths(aaId: int, brId: int, db: Lookups, other: Lookups, aaId2: int, brId2: int)
    ensures (aaId == 0 || brId == 0) && (aaId2 == 0 || brId2 == 0) ==>
              GetBillRepository(aaId, brId, db) == GetBillRepository(aaId2, brId2, db)
    ensures aaId != 0 && brId != 0 && other.accountWithId == db.accountWithId
            && other.repositoryById == db.repositoryById ==>
              GetBillRepository(aaId, brId, db) == GetBillRepository(aaId, brId, other)
  {
  }

  /** A repository found without error on the master path is the first
      repository of the master user's first account, or the zero repository
      when the user has no account or that account no repository. */
  lemma MasterRepository(db: Lookups)
    requires GetBillRepository(0, 0, db).1.None?
    ensures db.masterUser.Ok?
    ensures var aas := db.accountsOf(db.masterUser.value);
            && aas.Ok?
            && (|aas.value| == 0 ==> GetBillRepository(0, 0, db).0 == NoRepository)
            && (|aas.value| > 0 ==>
                  var brs := db.repositoriesOf(aas.value[0]);
                  && brs.Ok?
                  && GetBillRepository(0, 0, db).0 == (if |brs.value| == 0 then NoRepository else brs.value[0]))
  {
  }

  /** `updateBillRepositoryForNextUpdate`: the last imported manifest moves
      to the newest manifest when that one is later, and the next update is
      placed `UpdateIntervalMinutes - UpdateIntervalWindow / 2 + draw`
      minutes from `now`, `draw` being the random draw in
      [0, UpdateIntervalWindow). */
  function PlanNextUpdate(br: BillRepository, latestManifest: Time, now: Time, draw: int): (r: BillRepository)
    requires 0 <= draw < UpdateIntervalWindow
    ensures r.lastImportedManifest.ns >= br.lastImportedManifest.ns
    ensures r.lastImportedManifest.ns >= latestManifest.ns
    ensures r.lastImportedManifest == br.lastImportedManifest || r.lastImportedManifest == latestManifest
    ensures latestManifest.ns <= br.lastImportedManifest.ns ==> r.lastImportedManifest == br.lastImportedManifest
    ensures r.nextUpdate.offset == now.offset
    ensures 300 * NsPerMinute <= r.nextUpdate.ns - now.ns < 420 * NsPerMinute
    ensures r.(lastImportedManifest := br.lastImportedManifest, nextUpdate := br.nextUpdate) == br
  {
    var last := if Before(br.lastImportedManifest, latestManifest) then latestManifest else br.lastImportedManifest;
    var delta := UpdateIntervalMinutes - UpdateIntervalWindow / 2 + draw;
    br.(lastImportedManifest := last, nextUpdate := Time(now.ns + delta * NsPerMinute, now.offset))
  }

  /** Planning twice never moves the last imported manifest backwards, and
      an older manifest leaves it where it was. */
  lemma ManifestNeverMovesBack(br: BillRepository, m1: Time, m2: Time, now: Time, d1: int, d2: int)
    requires 0 <= d1 < UpdateIntervalWindow && 0 <= d2 < UpdateIntervalWindow
    ensures var once := PlanNextUpdate(br, m1, now, d1);
            var twice := PlanNextUpdate(once, m2, now, d2);
            && twice.lastImportedManifest.ns >= once.lastImportedManifest.ns
            && (m2.ns <= once.lastImportedManifest.ns ==> twice.lastImportedManifest == once.lastImportedManifest)
  {
  }

  /** `registerUpdateCompletion`: the error column holds the error's text,
      and is empty without an error; it is empty exactly when there was no
      error or the error's text was empty. */
  function CompletionError(err: Option<string>): (value: string)
    ensures err.None? ==> value == ""
    ensures err.Some? ==> value == err.value
    ensures value == "" <==> err.None? || err.value == ""
  {
    if err.Some? then err.value else ""
  }

  /** With errors that have a text, the column is empty exactly when the
      ingestion succeeded. */
  lemma CompletionErrorEmptyIffSuccess(err: Option<string>)
    requires err.Some? ==> err.value != ""
    ensures CompletionError(err) == "" <==> err.None?
  {
  }

  /** The outcome of one ingestion: its error, whether the transaction was
      committed, the repository the task tried to write back (on the S3
      error path, outside the transaction; after the planning, inside it,
      so that it is kept only when the transaction is committed), the update
      job id and the job's error column. */
  datatype Ingestion = Ingestion(
    err: Option<string>,
    committed: bool,
    saved: Option<BillRepository>,
    updateId: int,
    completionError: string)

  /** The results of the foreign steps of one ingestion. */
  datatype Outcomes = Outcomes(
    beginTx: Option<string>,
    registerUpdate: Result<int>,
    updateReport: Result<Time>,
    reportAwsMessage: Option<string>,
    now: Time,
    draw: int,
    updateRepository: Option<string>)

  /** `ingestBillingDataForBillRepository`. The steps run in order and stop at
      the first error; the transaction, once begun, is committed on success
      and rolled back otherwise; the completion of the update job is
      recorded in every case. `reportAwsMessage` is the message of an S3
      import error that is an AWS error, which is then stored on the
      repository. */
  function Ingest(aaId: int, brId: int, db: Lookups, o: Outcomes): (r: Ingestion)
    requires 0 <= o.draw < UpdateIntervalWindow
    ensures r.completionError == CompletionError(r.err)
    ensures r.committed <==> o.beginTx.None? && r.err.None?
    ensures r.err.None? ==>
              && GetBillRepository(aaId, brId, db).1.None? && o.registerUpdate.Ok? && o.updateReport.Ok?
              && r.saved.Some? && r.saved.value.error == ""
    ensures o.beginTx.Some? ==> r.err == o.beginTx && r.saved.None? && r.updateId == 0
  {
    if o.beginTx.Some? then Ingestion(o.beginTx, false, None, 0, CompletionError(o.beginTx))
    else
      var (br, brErr) := GetBillRepository(aaId, brId, db);
      if brErr.Some? then Ingestion(brErr, false, None, 0, CompletionError(brErr))
      else if o.registerUpdate.Err? then
        var err := Some(o.registerUpdate.msg);
        Ingestion(err, false, None, 0, CompletionError(err))
      else
        var updateId := o.registerUpdate.value;
        if o.updateReport.Err? then
          var err := Some(o.updateReport.msg);
          var saved := if o.reportAwsMessage.Some? then Some(br.(error := o.reportAwsMessage.value)) else None;
          Ingestion(err, false, saved, updateId, CompletionError(err))
        else
          var planned := PlanNextUpdate(br.(error := ""), o.updateReport.value, o.now, o.draw);
          Ingestion(o.updateRepository, o.updateRepository.None?, Some(planned), updateId,
                    CompletionError(o.updateRepository))
  }

  /** A successful ingestion stores the repository the lookup found, with
      its error cleared, its manifest moved forward to the imported one and
      its next update in the window. */
  lemma SuccessfulIngestion(aaId: int, brId: int, db: Lookups, o: Outcomes)
    requires 0 <= o.draw < UpdateIntervalWindow
    requires Ingest(aaId, brId, db, o).err.None?
    ensures var r := Ingest(aaId, brId, db, o);
            var br := GetBillRepository(aaId, brId, db).0;
            && r.committed && r.updateId == o.registerUpdate.value && r.completionError == ""
            && r.saved.Some? && r.saved.value.id == br.id && r.saved.value.error == ""
            && r.saved.value.lastImportedManifest.ns >= o.updateReport.value.ns
            && r.saved.value.lastImportedManifest.ns >= br.lastImportedManifest.ns
            && 300 * NsPerMinute <= r.saved.value.nextUpdate.ns - o.now.ns < 420 * NsPerMinute
  {
  }
}
