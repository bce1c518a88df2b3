/** models/awsaccount.xo.go: the `aws_account` row and its lifecycle. A
    record knows whether it is stored in the database and whether it was
    deleted from it; inserts, updates and deletes consult those two flags
    before any statement runs. The database itself is foreign: the outcome
    of a statement (`Exec`, `LastInsertId`, a scan) arrives as a parameter. */
module AwsAccountModel {
  import opened Common

  const AlreadyExists: string := "insert failed: already exists"
  const DoesNotExist: string := "update failed: does not exist"
  const MarkedForDeletion: string := "update failed: marked for deletion"

  /** The columns of a row other than its id. The timestamps are not
      modelled. */
  datatype Columns = Columns(
    userId: int,
    pretty: string,
    roleArn: string,
    external: string,
    payer: bool,
    awsIdentity: string,
    parentId: Option<int>)

  /** The two lifecycle flags: stored in the database, deleted from it. */
  datatype Flags = Flags(stored: bool, deleted: bool)

  /** What one operation does to the flags, and its error. */
  datatype Step = Step(flags: Flags, err: Option<string>)

  /** `Insert`: refused on a stored record; otherwise stored once both the
      statement and the id retrieval succeed. */
  function InsertStep(f: Flags, exec: Option<string>, lastInsertId: Result<int>): Step
  {
    if f.stored then Step(f, Some(AlreadyExists))
    else if exec.Some? then Step(f, exec)
    else if lastInsertId.Err? then Step(f, Some(lastInsertId.msg))
    else Step(f.(stored := true), None)
  }

  /** `Update`: refused on a record not stored or deleted; otherwise the
      statement's own outcome. */
  function UpdateStep(f: Flags, exec: Option<string>): Step
  {
    if !f.stored then Step(f, Some(DoesNotExist))
    else if f.deleted then Step(f, Some(MarkedForDeletion))
    else Step(f, exec)
  }

  /** `Save`: an update of a stored record, an insert otherwise. */
  function SaveStep(f: Flags, exec: Option<string>, lastInsertId: Result<int>): Step
  {
    if f.stored then UpdateStep(f, exec) else InsertStep(f, exec, lastInsertId)
  }

  /** `Delete`: nothing to do, and no error, on a record not stored or
      already deleted; otherwise deleted once the statement succeeds. */
  function DeleteStep(f: Flags, exec: Option<string>): Step
  {
    if !f.stored || f.deleted then Step(f, None)
    else if exec.Some? then Step(f, exec)
    else Step(f.(deleted := true), None)
  }

  /** Only a stored record can be deleted. */
  predicate Consistent(f: Flags)
  {
    f.deleted ==> f.stored
  }

  /** Every operation keeps the flags consistent, never unstores a record and
      never undeletes one, and leaves the flags alone when it fails. */
  lemma StepsPreserve(f: Flags, exec: Option<string>, lastInsertId: Result<int>)
    requires Consistent(f)
    ensures forall s :: s in {InsertStep(f, exec, lastInsertId), UpdateStep(f, exec),
                              SaveStep(f, exec, lastInsertId), DeleteStep(f, exec)} ==>
              && Consistent(s.flags)
              && (f.stored ==> s.flags.stored)
              && (f.deleted ==> s.flags.deleted)
              && (s.err.Some? ==> s.flags == f)
  {
  }

  /** A successful insert stores the record, after which a second insert is
      refused. */
  lemma InsertOnce(f: Flags, exec: Option<string>, lastInsertId: Result<int>, exec2: Option<string>, id2: Result<int>)
    requires InsertStep(f, exec, lastInsertId).err.None?
    ensures var g := InsertStep(f, exec, lastInsertId).flags;
            g.stored && InsertStep(g, exec2, id2) == Step(g, Some(AlreadyExists))
  {
  }

  /** Once a delete succeeded on a stored record, saving it is refused as
      marked for deletion, and deleting it again does nothing. */
  lemma DeleteThenSave(f: Flags, exec: Option<string>, exec2: Option<string>, id2: Result<int>)
    requires Consistent(f) && f.stored && !f.deleted
    requires DeleteStep(f, exec).err.None?
    ensures var g := DeleteStep(f, exec).flags;
            && g == Flags(true, true)
            && SaveStep(g, exec2, id2) == Step(g, Some(MarkedForDeletion))
            && DeleteStep(g, exec2) == Step(g, None)
  {
  }

  /** A record fresh from the database (stored, not deleted) is updated,
      saved and deleted with the statement's own outcome. */
  lemma LoadedRecord(exec: Option<string>, lastInsertId: Result<int>)
    ensures var f := Flags(true, false);
            && UpdateStep(f, exec).err == exec
            && SaveStep(f, exec, lastInsertId) == UpdateStep(f, exec)
            && DeleteStep(f, exec).err == exec
  {
  }

  /** `AwsAccount`, the record with its two lifecycle flags. */
  class AwsAccount {
    var id: int
    var columns: Columns
    var stored: bool
    var deleted: bool

    function Lifecycle(): Flags
      reads this
    {
      Flags(stored, deleted)
    }

    /** A new record, not yet stored. */
    constructor (columns: Columns)
      ensures this.columns == columns && Lifecycle() == Flags(false, false)
    {
      this.id := 0;
      this.columns := columns;
      this.stored := false;
      this.deleted := false;
    }

    /** `Exists`. */
    function Exists(): (r: bool)
      reads this
      ensures r == Lifecycle().stored
    {
      stored
    }

    /** `Deleted`. */
    function Deleted(): (r: bool)
      reads this
      ensures r == Lifecycle().deleted
    {
      deleted
    }

    /** `Insert`: on success the record takes the id the database assigned. */
    method Insert(exec: Option<string>, lastInsertId: Result<int>) returns (err: Option<string>)
      modifies this
      ensures Step(Lifecycle(), err) == InsertStep(old(Lifecycle()), exec, lastInsertId)
      ensures id == (if err.None? then lastInsertId.value else old(id))
      ensures columns == old(columns)
    {
      if stored {
        return Some(AlreadyExists);
      }
      if exec.Some? {
        return exec;
      }
      if lastInsertId.Err? {
        return Some(lastInsertId.msg);
      }
      id := lastInsertId.value;
      stored := true;
      return None;
    }

    /** `Update`: the record is written back; nothing of it changes. */
    method Update(exec: Option<string>) returns (err: Option<string>)
      ensures Step(Lifecycle(), err) == UpdateStep(Lifecycle(), exec)
    {
      if !stored {
        return Some(DoesNotExist);
      }
      if deleted {
        return Some(MarkedForDeletion);
      }
      return exec;
    }

    /** `Save`. */
    method Save(exec: Option<string>, lastInsertId: Result<int>) returns (err: Option<string>)
      modifies this
      ensures Step(Lifecycle(), err) == SaveStep(old(Lifecycle()), exec, lastInsertId)
      ensures id == (if !old(stored) && err.None? then lastInsertId.value else old(id))
      ensures columns == old(columns)
    {
      if Exists() {
        err := Update(exec);
      } else {
        err := Insert(exec, lastInsertId);
      }
    }

    /** `Delete`. */
    method Delete(exec: Option<string>) returns (err: Option<string>)
      modifies this
      ensures Step(Lifecycle(), err) == DeleteStep(old(Lifecycle()), exec)
      ensures id == old(id) && columns == old(columns)
    {
      if !stored {
        return None;
      }
      if deleted {
        return None;
      }
      if exec.Some? {
        return exec;
      }
      deleted := true;
      return None;
    }
  }

  /** `AwsAccountByID`: the scanned row as a stored, undeleted record, or the
      scan's error and no record. */
  method AwsAccountById(scanned: Result<(int, Columns)>) returns (aa: AwsAccount?, err: Option<string>)
    ensures scanned.Err? ==> aa == null && err == Some(scanned.msg)
    ensures scanned.Ok? ==> aa != null && fresh(aa) && err.None?
    ensures scanned.Ok? ==> aa.id == scanned.value.0 && aa.columns == scanned.value.1
    ensures scanned.Ok? ==> aa.Lifecycle() == Flags(true, false)
  {
    if scanned.Err? {
      return null, Some(scanned.msg);
    }
    aa := new AwsAccount(scanned.value.1);
    aa.id := scanned.value.0;
    aa.stored := true;
    err := None;
  }

  /** `AwsAccountsByUserID`: one stored, undeleted record per scanned row, in
      order; the query's error, or the first row that fails to scan, gives
      no records and that error. */
  method AwsAccountsByUserId(query: Result<seq<Result<(int, Columns)>>>)
    returns (res: seq<AwsAccount>, err: Option<string>)
    ensures query.Err? ==> res == [] && err == Some(query.msg)
    ensures query.Ok? && (exists i :: 0 <= i < |query.value| && query.value[i].Err?) ==>
              res == [] && err.Some?
    ensures query.Ok? ==>
              forall i :: 0 <= i < |query.value| && query.value[i].Err? && (forall k :: 0 <= k < i ==> query.value[k].Ok?) ==>
                err == Some(query.value[i].msg)
    ensures query.Ok? && (forall i :: 0 <= i < |query.value| ==> query.value[i].Ok?) ==>
              && err.None? && |res| == |query.value|
              && forall i :: 0 <= i < |res| ==>
                   && fresh(res[i])
                   && res[i].id == query.value[i].value.0 && res[i].columns == query.value[i].value.1
                   && res[i].Lifecycle() == Flags(true, false)
    ensures forall i, j :: 0 <= i < j < |res| ==> res[i] != res[j]
  {
    if query.Err? {
      return [], Some(query.msg);
    }
    var rows := query.value;
    res := [];
    var i := 0;
    while i < |rows|
      invariant 0 <= i <= |rows| && |res| == i
      invariant forall k :: 0 <= k < i ==> rows[k].Ok?
      invariant forall k :: 0 <= k < i ==>
                  && fresh(res[k])
                  && res[k].id == rows[k].value.0 && res[k].columns == rows[k].value.1
                  && res[k].Lifecycle() == Flags(true, false)
      invariant forall k, l :: 0 <= k < l < i ==> res[k] != res[l]
    {
      if rows[i].Err? {
        return [], Some(rows[i].msg);
      }
      var aa := new AwsAccount(rows[i].value.1);
      aa.id := rows[i].value.0;
      aa.stored := true;
      res := res + [aa];
      i := i + 1;
    }
    err := None;
  }
}
