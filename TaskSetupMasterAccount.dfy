/** server/taskSetupMasterAccount.go: the `setup-master-account` task, which
    makes sure the master user, its AWS account and the account's bill
    repository exist, creating what is missing. The database is a value
    here; the failures of its statements, of the transaction, of the mail
    and the random draws of the password arrive as parameters. */
module TaskSetupMasterAccount {
  import opened Common

  const EmptyArgumentsError: string :=
    "A master email wasn't defined in arguments, please rerun with -master-email=<email> -bucket=<bucket-name>"

  /** The characters a generated password is made of. */
  const ValidChars: string := LowerChars + UpperChars + DigitChars + SymbolChars

  const LowerChars: string := "abcdefghijklmnopqrstuvyxwz"
  const UpperChars: string := "ABCDEFGHIJKLMNOPQRSTUYXWZ"
  const DigitChars: string := "0123456789"
  const SymbolChars: string := "!@#$+=-"

  const MailSubject: string := "Trackit It Master Account"
  const MailBodyPrefix: string := "Congratulations!\nYour master account was created with success and your Password is: "

  /** The 68 characters hold no upper-case 'V'. */
  lemma ValidCharsShape()
    ensures |ValidChars| == 68
    ensures 'V' !in ValidChars
  {
    assert 'V' !in LowerChars && 'V' !in UpperChars && 'V' !in DigitChars && 'V' !in SymbolChars;
  }

  /** `generatePassword(size)`: `size` characters, the i-th being the
      character `draws[i]` picks among `ValidChars` (`draws[i]` is the i-th
      `rand.Intn(len(validChars))`). */
  method GeneratePassword(size: nat, draws: seq<int>) returns (password: string)
    requires |draws| == size
    requires forall i :: 0 <= i < size ==> 0 <= draws[i] < |ValidChars|
    ensures |password| == size
    ensures forall i :: 0 <= i < size ==> password[i] == ValidChars[draws[i]]
    ensures forall i :: 0 <= i < size ==> password[i] in ValidChars && password[i] != 'V'
  {
    ValidCharsShape();
    var buffer := new char[size];
    var countChars := |ValidChars|;
    for i := 0 to size
      invariant forall k :: 0 <= k < i ==> buffer[k] == ValidChars[draws[k]]
    {
      buffer[i] := ValidChars[draws[i]];
    }
    password := buffer[..];
  }

  datatype AwsAccount = AwsAccount(id: int, userId: int, pretty: string, roleArn: string, external: string, payer: bool)

  datatype BillRepository = BillRepository(id: int, awsAccountId: int, bucket: string, prefix: string)

  /** The tables involved: users by email, AWS accounts and bill
      repositories in insertion order, and the next id to assign. */
  datatype Db = Db(users: map<string, int>, accounts: seq<AwsAccount>, repositories: seq<BillRepository>, nextId: int)

  /** A mail sent: recipient, subject and body. */
  datatype Sent = Sent(recipient: string, subject: string, body: string)

  /** The failures of the foreign steps. A failed lookup of accounts or
      repositories finds nothing. */
  datatype Faults = Faults(
    beginTx: Option<string>,
    userLookup: Option<string>,
    createUser: Option<string>,
    sendMail: Option<string>,
    accountsLookup: Option<string>,
    createAccount: Option<string>,
    repositoriesLookup: Option<string>,
    createRepository: Option<string>)

  /** No lookup and no transaction fails. */
  predicate LookupsSucceed(f: Faults)
  {
    f.beginTx.None? && f.userLookup.None? && f.accountsLookup.None? && f.repositoriesLookup.None?
  }

  /** The accounts of a user, in insertion order. */
  function AccountsOf(accounts: seq<AwsAccount>, userId: int): seq<AwsAccount>
  {
    if accounts == [] then []
    else
      var n := |accounts| - 1;
      AccountsOf(accounts[..n], userId) + (if accounts[n].userId == userId then [accounts[n]] else [])
  }

  /** The bill repositories of an account, in insertion order. */
  function RepositoriesOf(repositories: seq<BillRepository>, accountId: int): seq<BillRepository>
  {
    if repositories == [] then []
    else
      var n := |repositories| - 1;
      RepositoriesOf(repositories[..n], accountId)
      + (if repositories[n].awsAccountId == accountId then [repositories[n]] else [])
  }

  /** The accounts of a user are exactly the accounts with its id. */
  lemma {:induction false} AccountsOfSelects(accounts: seq<AwsAccount>, userId: int)
    ensures forall a :: a in AccountsOf(accounts, userId) <==> a in accounts && a.userId == userId
  {
    if accounts != [] {
      var n := |accounts| - 1;
      AccountsOfSelects(accounts[..n], userId);
      assert accounts == accounts[..n] + [accounts[n]];
    }
  }

  /** The repositories of an account are exactly the repositories with its id. */
  lemma {:induction false} RepositoriesOfSelects(repositories: seq<BillRepository>, accountId: int)
    ensures forall b :: b in RepositoriesOf(repositories, accountId) <==>
              b in repositories && b.awsAccountId == accountId
  {
    if repositories != [] {
      var n := |repositories| - 1;
      RepositoriesOfSelects(repositories[..n], accountId);
      assert repositories == repositories[..n] + [repositories[n]];
    }
  }

  /** The outcome of a setup step: the database, the error, and the mail
      attempted, if any (whether or not it was delivered). */
  datatype Outcome = Outcome(db: Db, err: Option<string>, mailed: Option<Sent>)

  /** `createMasterBill`: the account's first repository is kept; without
      one, a repository on `bucket` with an empty prefix is created. */
  function CreateMasterBill(db: Db, aa: AwsAccount, bucket: string, f: Faults): (Db, Option<string>)
  {
    var found := if f.repositoriesLookup.Some? then [] else RepositoriesOf(db.repositories, aa.id);
    if |found| > 0 then (db, None)
    else if f.createRepository.Some? then (db, f.createRepository)
    else (db.(repositories := db.repositories + [BillRepository(db.nextId, aa.id, bucket, "")], nextId := db.nextId + 1), None)
  }

  /** The account the master account is set up with when the user has none. */
  function MasterAwsAccount(id: int, userId: int): AwsAccount
  {
    AwsAccount(id, userId, "tfg-trackit", "no role", "", true)
  }

  /** `createMasterAwsAccount`: the user's first account is kept; without
      one, a payer account with no role is created; then its bill
      repository. */
  function CreateMasterAwsAccount(db: Db, userId: int, bucket: string, f: Faults): (Db, Option<string>)
  {
    var found := if f.accountsLookup.Some? then [] else AccountsOf(db.accounts, userId);
    if |found| > 0 then CreateMasterBill(db, found[0], bucket, f)
    else if f.createAccount.Some? then (db, f.createAccount)
    else
      var aa := MasterAwsAccount(db.nextId, userId);
      CreateMasterBill(db.(accounts := db.accounts + [aa], nextId := db.nextId + 1), aa, bucket, f)
  }

  /** `setupMasterAccount`: the user with the master email is looked up;
      when there is none it is created with `password` and told so by mail,
      and a failed mail stops the setup; then its AWS account. */
  function SetupMasterAccount(db: Db, email: string, bucket: string, password: string, f: Faults): Outcome
  {
    if f.userLookup.Some? then Outcome(db, f.userLookup, None)
    else if email in db.users then
      var (db', err) := CreateMasterAwsAccount(db, db.users[email], bucket, f);
      Outcome(db', err, None)
    else if f.createUser.Some? then Outcome(db, f.createUser, None)
    else
      var userId := db.nextId;
      var created := db.(users := db.users[email := userId], nextId := db.nextId + 1);
      var sent := Some(Sent(email, MailSubject, MailBodyPrefix + password));
      if f.sendMail.Some? then Outcome(created, f.sendMail, sent)
      else
        var (db', err) := CreateMasterAwsAccount(created, userId, bucket, f);
        Outcome(db', err, sent)
  }

  /** `taskSetupMasterAccount`: the setup runs in one transaction, refused
      outright without a master email or a bucket; on an error the
      transaction is rolled back and the database is as before (the mail,
      once attempted, stays attempted). A new user whose mail cannot be sent
      stops the setup with that error. */
  function TaskSetup(db: Db, email: string, bucket: string, password: string, f: Faults): (r: Outcome)
    ensures email == "" || bucket == "" ==> r.err.Some? && r.db == db && r.mailed.None?
    ensures r.err.Some? ==> r.db == db
    ensures r.mailed.Some? ==>
              email !in db.users && r.mailed.value == Sent(email, MailSubject, MailBodyPrefix + password)
    ensures email != "" && bucket != "" && f.beginTx.None? && f.userLookup.None? && email !in db.users
            && f.createUser.None? && f.sendMail.Some? ==>
              r.err == f.sendMail && r.db == db && r.mailed.Some?
  {
    if f.beginTx.Some? then Outcome(db, f.beginTx, None)
    else if email == "" || bucket == "" then Outcome(db, Some(EmptyArgumentsError), None)
    else
      var o := SetupMasterAccount(db, email, bucket, password, f);
      if o.err.Some? then o.(db := db) else o
  }

  /** The database holds a complete master account: the user, a first AWS
      account of it, and a first bill repository of that account. */
  predicate Complete(db: Db, email: string)
  {
    && email in db.users
    && |AccountsOf(db.accounts, db.users[email])| > 0
    && |RepositoriesOf(db.repositories, AccountsOf(db.accounts, db.users[email])[0].id)| > 0
  }

  /** With a complete master account and working lookups, the setup changes
      nothing, sends no mail and succeeds. */
  lemma SetupOfCompleteAccount(db: Db, email: string, bucket: string, password: string, f: Faults)
    requires email != "" && bucket != "" && LookupsSucceed(f)
    requires Complete(db, email)
    ensures TaskSetup(db, email, bucket, password, f) == Outcome(db, None, None)
  {
  }

  lemma {:induction false} AccountsOfAppend(accounts: seq<AwsAccount>, a: AwsAccount, userId: int)
    ensures AccountsOf(accounts + [a], userId)
            == AccountsOf(accounts, userId) + (if a.userId == userId then [a] else [])
  {
    assert (accounts + [a])[..|accounts|] == accounts;
  }

  lemma {:induction false} RepositoriesOfAppend(repositories: seq<BillRepository>, b: BillRepository, accountId: int)
    ensures RepositoriesOf(repositories + [b], accountId)
            == RepositoriesOf(repositories, accountId) + (if b.awsAccountId == accountId then [b] else [])
  {
    assert (repositories + [b])[..|repositories|] == repositories;
  }

  /** A successful bill step leaves the account with a repository, and
      changes no user and no account: an existing repository is kept as the
      database was, and otherwise one on the configured bucket with an empty
      prefix is added. */
  lemma MasterBillDone(db: Db, aa: AwsAccount, bucket: string, f: Faults)
    requires f.repositoriesLookup.None? && CreateMasterBill(db, aa, bucket, f).1.None?
    ensures var db' := CreateMasterBill(db, aa, bucket, f).0;
            |RepositoriesOf(db'.repositories, aa.id)| > 0 && db'.users == db.users && db'.accounts == db.accounts
    ensures var db' := CreateMasterBill(db, aa, bucket, f).0;
            && (|RepositoriesOf(db.repositories, aa.id)| > 0 ==> db' == db)
            && (|RepositoriesOf(db.repositories, aa.id)| == 0 ==>
                  db'.repositories == db.repositories + [BillRepository(db.nextId, aa.id, bucket, "")])
  {
    var found := RepositoriesOf(db.repositories, aa.id);
    if |found| == 0 {
      RepositoriesOfAppend(db.repositories, BillRepository(db.nextId, aa.id, bucket, ""), aa.id);
    }
  }

  /** A successful account step leaves the user with a first account that
      has a repository, and changes no user. */
  lemma MasterAwsAccountDone(db: Db, userId: int, bucket: string, f: Faults)
    requires f.accountsLookup.None? && f.repositoriesLookup.None?
    requires CreateMasterAwsAccount(db, userId, bucket, f).1.None?
    ensures var db' := CreateMasterAwsAccount(db, userId, bucket, f).0;
            && db'.users == db.users
            && |AccountsOf(db'.accounts, userId)| > 0
            && |RepositoriesOf(db'.repositories, AccountsOf(db'.accounts, userId)[0].id)| > 0
  {
    if |AccountsOf(db.accounts, userId)| > 0 {
      ExistingAccountDone(db, userId, bucket, f);
    } else {
      NewAccountDone(db, userId, bucket, f);
    }
  }

  /** The user's first account is kept and given a repository. */
  lemma ExistingAccountDone(db: Db, userId: int, bucket: string, f: Faults)
    requires f.accountsLookup.None? && f.repositoriesLookup.None?
    requires |AccountsOf(db.accounts, userId)| > 0
    requires CreateMasterAwsAccount(db, userId, bucket, f).1.None?
    ensures var db' := CreateMasterAwsAccount(db, userId, bucket, f).0;
            && db'.users == db.users
            && |AccountsOf(db'.accounts, userId)| > 0
            && |RepositoriesOf(db'.repositories, AccountsOf(db'.accounts, userId)[0].id)| > 0
  {
    var aa := AccountsOf(db.accounts, userId)[0];
    assert CreateMasterAwsAccount(db, userId, bucket, f) == CreateMasterBill(db, aa, bucket, f);
    var db' := CreateMasterBill(db, aa, bucket, f).0;
    assert |RepositoriesOf(db'.repositories, aa.id)| > 0 && db'.users == db.users && db'.accounts == db.accounts by {
      MasterBillDone(db, aa, bucket, f);
    }
  }

  /** A user without an account gets the master account, which is given a
      repository. */
  lemma NewAccountDone(db: Db, userId: int, bucket: string, f: Faults)
    requires f.accountsLookup.None? && f.repositoriesLookup.None?
    requires |AccountsOf(db.accounts, userId)| == 0
    requires CreateMasterAwsAccount(db, userId, bucket, f).1.None?
    ensures var db' := CreateMasterAwsAccount(db, userId, bucket, f).0;
            && db'.users == db.users
            && |AccountsOf(db'.accounts, userId)| > 0
            && |RepositoriesOf(db'.repositories, AccountsOf(db'.accounts, userId)[0].id)| > 0
  {
    var aa := MasterAwsAccount(db.nextId, userId);
    var db1 := db.(accounts := db.accounts + [aa], nextId := db.nextId + 1);
    AccountsOfAppend(db.accounts, aa, userId);
    assert AccountsOf(db1.accounts, userId) == [aa];
    assert CreateMasterAwsAccount(db, userId, bucket, f) == CreateMasterBill(db1, aa, bucket, f);
    var db' := CreateMasterBill(db1, aa, bucket, f).0;
    assert |RepositoriesOf(db'.repositories, aa.id)| > 0 && db'.users == db1.users && db'.accounts == db1.accounts by {
      MasterBillDone(db1, aa, bucket, f);
    }
  }


  /** A successful setup leaves a complete master account. */
  lemma {:induction false} SetupCompletes(db: Db, email: string, bucket: string, password: string, f: Faults)
    requires LookupsSucceed(f)
    requires TaskSetup(db, email, bucket, password, f).err.None?
    ensures Complete(TaskSetup(db, email, bucket, password, f).db, email)
  {
    if email in db.users {
      MasterAwsAccountDone(db, db.users[email], bucket, f);
    } else {
      var userId := db.nextId;
      var created := db.(users := db.users[email := userId], nextId := db.nextId + 1);
      MasterAwsAccountDone(created, userId, bucket, f);
    }
  }

  /** The setup is idempotent: once it succeeded, running it again (with
      working lookups) changes nothing, sends no mail and succeeds. */
  lemma SetupIdempotent(db: Db, email: string, bucket: string, password: string, f: Faults,
                        password2: string, f2: Faults)
    requires LookupsSucceed(f) && LookupsSucceed(f2)
    requires TaskSetup(db, email, bucket, password, f).err.None?
    ensures var db' := TaskSetup(db, email, bucket, password, f).db;
            TaskSetup(db', email, bucket, password2, f2) == Outcome(db', None, None)
  {
    SetupCompletes(db, email, bucket, password, f);
    SetupOfCompleteAccount(TaskSetup(db, email, bucket, password, f).db, email, bucket, password2, f2);
  }

  /** A failed lookup of the user's accounts is taken for "no account": a
      new master AWS account is created rather than the error reported. */
  lemma FailedAccountLookupCreates(db: Db, userId: int, bucket: string, f: Faults)
    requires f.accountsLookup.Some? && f.createAccount.None? && f.repositoriesLookup.None?
    requires f.createRepository.None?
    ensures var (db', err) := CreateMasterAwsAccount(db, userId, bucket, f);
            err.None? && db'.accounts == db.accounts + [MasterAwsAccount(db.nextId, userId)]
  {
    var aa := MasterAwsAccount(db.nextId, userId);
    var db1 := db.(accounts := db.accounts + [aa], nextId := db.nextId + 1);
    var found := RepositoriesOf(db1.repositories, aa.id);
  }
}
