/** CreateUsersBulk: registering a batch one item after another, failures reported item by item. */
module Bulk {
  import opened Wrappers
  import opened Domain
  import opened Emails
  import opened Tables
  import opened Protocol
  import opened Serial
  import A = Answers

  datatype BulkItem = BulkItem(email: string, password: string, name: string)
  datatype CreatedUser = CreatedUser(id: Id, email: string)
  datatype SkippedUser = SkippedUser(email: string, reason: string)
  datatype BulkState = BulkState(db: Db, created: seq<CreatedUser>, skipped: seq<SkippedUser>)

  const ALREADY_REGISTERED := "email already registered"
  const UNKNOWN_ERROR := "unknown error"

  /** The environment of each item. */
  type BatchTicks = nat -> Ticks

  // ---------------------------------------------------------------- one registration

  function NewUser(item: BulkItem, w: Ticks): User {
    User(w(1).id, NormalizeEmail(item.email), Some(w(1).value), item.name, [ROLE_CUSTOMER], w(1).now, w(1).now)
  }

  function RegisterOutcome(cfg: Config, db: Db, item: BulkItem, w: Ticks): Outcome {
    if !w(0).ok then Outcome(db, Refused(Unavailable))
    else if ExistsByEmail(db, NormalizeEmail(item.email)) then Outcome(db, Refused(EmailAlreadyExists))
    else if !w(1).ok || !cfg.hashable(item.password) then Outcome(db, Refused(Unavailable))
    else
      Inserted(InsertUser(db, NewUser(item, w), w(2).ok), NewUser(item, w))
  }

  function Inserted(n: Written, user: User): Outcome {
    Outcome(n.db, if n.ok then Replied(Registered(user)) else Refused(Unavailable))
  }

  lemma RegisterAlone(cfg: Config, db: Db, item: BulkItem, w: Ticks)
    ensures Answer(Serve(cfg, db, Input.Register(item.email, item.password, item.name), w))
            == RegisterOutcome(cfg, db, item, w)
  {
    var q := NewRequest(Input.Register(item.email, item.password, item.name));
    var address := NormalizeEmail(item.email);
    Unroll(cfg, db, q, w, 0);
    if w(0).ok && !ExistsByEmail(db, address) {
      HashAlone(cfg, db, q.Goto(HashPassword(address, item.password, item.name)), item, w);
    }
  }

  lemma HashAlone(cfg: Config, db: Db, q: Req, item: BulkItem, w: Ticks)
    requires q.pc == HashPassword(NormalizeEmail(item.email), item.password, item.name)
    ensures var n := InsertUser(db, NewUser(item, w), w(2).ok);
            Answer(RunAlone(cfg, db, q, w, 1))
            == if w(1).ok && cfg.hashable(item.password) then Inserted(n, NewUser(item, w))
               else Outcome(db, Refused(Unavailable))
  {
    Unroll(cfg, db, q, w, 1);
    if w(1).ok && cfg.hashable(item.password) {
      InsertAlone(cfg, db, q.Goto(InsertRegistered(NewUser(item, w))), w);
    }
  }

  lemma InsertAlone(cfg: Config, db: Db, q: Req, w: Ticks)
    requires q.pc.InsertRegistered?
    ensures Answer(RunAlone(cfg, db, q, w, 2)) == Inserted(InsertUser(db, q.pc.user, w(2).ok), q.pc.user)
  {
    Unroll(cfg, db, q, w, 2);
  }

  // ---------------------------------------------------------------- the batch

  function Record(st: BulkState, item: BulkItem, o: Outcome): BulkState {
    if o.response.Replied? && o.response.reply.Registered?
    then BulkState(o.db, st.created + [CreatedUser(o.response.reply.user.id, o.response.reply.user.email)], st.skipped)
    else
      var reason := if o.response == Refused(EmailAlreadyExists) then ALREADY_REGISTERED else UNKNOWN_ERROR;
      BulkState(o.db, st.created, st.skipped + [SkippedUser(item.email, reason)])
  }

  function RegisterNext(cfg: Config, st: BulkState, item: BulkItem, w: Ticks): BulkState {
    Record(st, item, RegisterOutcome(cfg, st.db, item, w))
  }

  /** The state after the first `n` items. */
  function BulkUpTo(cfg: Config, db: Db, items: seq<BulkItem>, ws: BatchTicks, n: nat): BulkState
    requires n <= |items|
  {
    if n == 0 then BulkState(db, [], [])
    else RegisterNext(cfg, BulkUpTo(cfg, db, items, ws, n - 1), items[n - 1], ws(n - 1))
  }

  /** What one item adds to the lists: the user as stored, or the address as given and why not. */
  ghost predicate ItemAnswer(item: BulkItem, response: Response, st: BulkState, st': BulkState) {
    match response
    case Replied(Registered(u)) =>
      st'.created == st.created + [CreatedUser(u.id, u.email)] && st'.skipped == st.skipped
    case Refused(EmailAlreadyExists) =>
      st'.created == st.created && st'.skipped == st.skipped + [SkippedUser(item.email, "email already registered")]
    case _ =>
      st'.created == st.created && st'.skipped == st.skipped + [SkippedUser(item.email, "unknown error")]
  }

  /** Each item is registered on what the items before it left, whatever failed, and recorded. */
  lemma ItemAnswers(cfg: Config, db: Db, items: seq<BulkItem>, ws: BatchTicks, n: nat)
    requires n < |items|
    ensures exists o: Outcome ::
              var st, st', item := BulkUpTo(cfg, db, items, ws, n), BulkUpTo(cfg, db, items, ws, n + 1), items[n];
              && A.RegisterAnswer(cfg, st.db, item.email, item.password, item.name, ws(n), o)
              && st'.db == o.db && ItemAnswer(item, o.response, st, st')
  {
    var st, item := BulkUpTo(cfg, db, items, ws, n), items[n];
    RegisterAlone(cfg, st.db, item, ws(n));
    A.RegisterAnswers(cfg, st.db, item.email, item.password, item.name, ws(n));
    assert ItemAnswer(item, RegisterOutcome(cfg, st.db, item, ws(n)).response, st, RegisterNext(cfg, st, item, ws(n)));
  }

  // ---------------------------------------------------------------- which items are created

  /** bcrypt takes the password and the row fits its columns. */
  predicate Good(cfg: Config, item: BulkItem) {
    cfg.hashable(item.password) && |NormalizeEmail(item.email)| <= 255 && |item.name| <= 255
  }

  ghost function AddressesOf(db: Db): set<string> {
    set i | i in db.users :: db.users[i].email
  }

  /** The addresses of the good items among the first `n`. */
  function GoodAddresses(cfg: Config, items: seq<BulkItem>, n: nat): set<string>
    requires n <= |items|
  {
    if n == 0 then {}
    else
      GoodAddresses(cfg, items, n - 1) +
      (if Good(cfg, items[n - 1]) then {NormalizeEmail(items[n - 1].email)} else {})
  }

  lemma {:induction false} GoodAddressesMean(cfg: Config, items: seq<BulkItem>, n: nat, address: string)
    requires n <= |items|
    ensures address in GoodAddresses(cfg, items, n)
            <==> exists j | 0 <= j < n :: Good(cfg, items[j]) && NormalizeEmail(items[j].email) == address
    decreases n
  {
    if n > 0 {
      GoodAddressesMean(cfg, items, n - 1, address);
      if Good(cfg, items[n - 1]) && NormalizeEmail(items[n - 1].email) == address {
        assert 0 <= n - 1 < n;
      }
    }
  }

  lemma ExistsMeansAddress(db: Db, address: string)
    ensures ExistsByEmail(db, address) <==> address in AddressesOf(db)
  {
  }

  /** The address is taken before the batch, or by an earlier good item. */
  ghost predicate Known(cfg: Config, db: Db, items: seq<BulkItem>, i: nat)
    requires i < |items|
  {
    NormalizeEmail(items[i].email) in AddressesOf(db) + GoodAddresses(cfg, items, i)
  }

  /** The first good occurrence of an address that the store does not have. */
  ghost predicate Fresh(cfg: Config, db: Db, items: seq<BulkItem>, i: nat)
    requires i < |items|
  {
    Good(cfg, items[i]) && !Known(cfg, db, items, i)
  }

  ghost function CreatedList(cfg: Config, db: Db, items: seq<BulkItem>, ws: BatchTicks, n: nat): seq<CreatedUser>
    requires n <= |items|
  {
    if n == 0 then []
    else CreatedList(cfg, db, items, ws, n - 1) +
         (if Fresh(cfg, db, items, n - 1)
          then [CreatedUser(ws(n - 1)(1).id, NormalizeEmail(items[n - 1].email))]
          else [])
  }

  ghost function SkippedList(cfg: Config, db: Db, items: seq<BulkItem>, n: nat): seq<SkippedUser>
    requires n <= |items|
  {
    if n == 0 then []
    else SkippedList(cfg, db, items, n - 1) +
         (if Fresh(cfg, db, items, n - 1) then []
          else [SkippedUser(items[n - 1].email,
                            if Known(cfg, db, items, n - 1) then ALREADY_REGISTERED else UNKNOWN_ERROR)])
  }

  /** No statement fails, hashes fit their column, and uuid.New never repeats an identifier. */
  ghost predicate Healthy(db: Db, items: seq<BulkItem>, ws: BatchTicks) {
    && (forall i, k: nat | 0 <= i < |items| :: ws(i)(k).ok)
    && (forall i | 0 <= i < |items| :: |ws(i)(1).value| <= 255 && ws(i)(1).id !in db.users)
    && (forall i, j | 0 <= i < j < |items| :: ws(i)(1).id != ws(j)(1).id)
  }

  function IdsUpTo(ws: BatchTicks, n: nat): set<Id> {
    if n == 0 then {} else IdsUpTo(ws, n - 1) + {ws(n - 1)(1).id}
  }

  lemma {:induction false} NextIdIsNew(db: Db, items: seq<BulkItem>, ws: BatchTicks, n: nat, i: nat)
    requires Healthy(db, items, ws) && n <= i < |items|
    ensures ws(i)(1).id !in IdsUpTo(ws, n)
    decreases n
  {
    if n > 0 {
      NextIdIsNew(db, items, ws, n - 1, i);
    }
  }

  /** One registration without faults. */
  lemma RegisterHealthy(cfg: Config, db: Db, item: BulkItem, w: Ticks)
    requires w(0).ok && w(1).ok && w(2).ok && |w(1).value| <= 255 && w(1).id !in db.users
    ensures var o, address := RegisterOutcome(cfg, db, item, w), NormalizeEmail(item.email);
            && AddressesOf(o.db) == AddressesOf(db) + (if Good(cfg, item) then {address} else {})
            && o.db.users.Keys <= db.users.Keys + {w(1).id}
            && o.response == (if address in AddressesOf(db) then Refused(EmailAlreadyExists)
                              else if Good(cfg, item) then Replied(Registered(NewUser(item, w)))
                              else Refused(Unavailable))
  {
    ExistsMeansAddress(db, NormalizeEmail(item.email));
    AddedAddress(db, NewUser(item, w));
  }

  lemma AddedAddress(db: Db, u: User)
    requires u.id !in db.users
    ensures AddressesOf(db.(users := db.users[u.id := u])) == AddressesOf(db) + {u.email}
  {
    var users := db.users[u.id := u];
    forall e | e in AddressesOf(db) + {u.email}
      ensures e in AddressesOf(db.(users := users))
    {
      if e == u.email {
        assert users[u.id].email == e;
      } else {
        var i :| i in db.users && db.users[i].email == e;
        assert users[i].email == e;
      }
    }
  }

  /** The characterisation of the state after `n` items. */
  ghost predicate Characterised(cfg: Config, db: Db, items: seq<BulkItem>, ws: BatchTicks, n: nat, st: BulkState)
    requires n <= |items|
  {
    && st.created == CreatedList(cfg, db, items, ws, n)
    && st.skipped == SkippedList(cfg, db, items, n)
    && AddressesOf(st.db) == AddressesOf(db) + GoodAddresses(cfg, items, n)
    && st.db.users.Keys <= db.users.Keys + IdsUpTo(ws, n)
  }

  /** Created is exactly the fresh items, in order, under their normalised addresses; Skipped is
      exactly the others, in order, with the reason; and the store has gained exactly the good addresses. */
  lemma {:induction false} BulkPartitions(cfg: Config, db: Db, items: seq<BulkItem>, ws: BatchTicks, n: nat)
    requires n <= |items| && Healthy(db, items, ws)
    ensures Characterised(cfg, db, items, ws, n, BulkUpTo(cfg, db, items, ws, n))
    decreases n
  {
    if n > 0 {
      BulkPartitions(cfg, db, items, ws, n - 1);
      NextCharacterised(cfg, db, items, ws, n, BulkUpTo(cfg, db, items, ws, n - 1));
    }
  }

  lemma UnionAssociates(a: set<string>, b: set<string>, c: set<string>)
    ensures (a + b) + c == a + (b + c)
  {
  }

  /** Recording a fault-free answer extends both lists as the characterisation says. */
  lemma RecordExtends(cfg: Config, db: Db, items: seq<BulkItem>, ws: BatchTicks, n: nat, st: BulkState, o: Outcome)
    requires 0 < n <= |items| && Characterised(cfg, db, items, ws, n - 1, st)
    requires o.db.users.Keys <= st.db.users.Keys + {ws(n - 1)(1).id}
    requires o.response == (if NormalizeEmail(items[n - 1].email) in AddressesOf(st.db) then Refused(EmailAlreadyExists)
                            else if Good(cfg, items[n - 1]) then Replied(Registered(NewUser(items[n - 1], ws(n - 1))))
                            else Refused(Unavailable))
    requires AddressesOf(o.db)
             == AddressesOf(st.db) + (if Good(cfg, items[n - 1]) then {NormalizeEmail(items[n - 1].email)} else {})
    ensures Characterised(cfg, db, items, ws, n, Record(st, items[n - 1], o))
  {
    UnionAssociates(AddressesOf(db), GoodAddresses(cfg, items, n - 1),
                    if Good(cfg, items[n - 1]) then {NormalizeEmail(items[n - 1].email)} else {});
    assert Known(cfg, db, items, n - 1) <==> NormalizeEmail(items[n - 1].email) in AddressesOf(st.db);
  }

  lemma NextCharacterised(cfg: Config, db: Db, items: seq<BulkItem>, ws: BatchTicks, n: nat, st: BulkState)
    requires 0 < n <= |items| && Healthy(db, items, ws) && Characterised(cfg, db, items, ws, n - 1, st)
    ensures Characterised(cfg, db, items, ws, n, RegisterNext(cfg, st, items[n - 1], ws(n - 1)))
  {
    var item, w := items[n - 1], ws(n - 1);
    assert w(0).ok && w(1).ok && w(2).ok && |w(1).value| <= 255 && w(1).id !in st.db.users by {
      NextIdIsNew(db, items, ws, n - 1, n - 1);
    }
    RegisterHealthy(cfg, st.db, item, w);
    RecordExtends(cfg, db, items, ws, n, st, RegisterOutcome(cfg, st.db, item, w));
  }

  /** Created users are in the store under their address, and no two share an identifier. */
  ghost predicate CreatedOk(st: BulkState) {
    && (forall a | 0 <= a < |st.created| :: Stored(st.db, st.created[a]))
    && (forall a, b | 0 <= a < b < |st.created| :: st.created[a].id != st.created[b].id)
  }

  ghost predicate Stored(db: Db, c: CreatedUser) {
    c.id in db.users && db.users[c.id].email == c.email
  }

  /** What one registration can do, whatever fails. */
  lemma RegisterShapes(cfg: Config, db: Db, item: BulkItem, w: Ticks)
    ensures var o, u := RegisterOutcome(cfg, db, item, w), NewUser(item, w);
            || (o.db == db && o.response.Refused?)
            || (AdmitsUser(db, u) && o == Outcome(db.(users := db.users[u.id := u]), Replied(Registered(u))))
  {
  }

  lemma NextKeepsCreatedOk(cfg: Config, st: BulkState, item: BulkItem, w: Ticks)
    requires Constraints(st.db) && CreatedOk(st)
    ensures var st' := RegisterNext(cfg, st, item, w);
            && Constraints(st'.db) && CreatedOk(st')
            && |st'.created| + |st'.skipped| == |st.created| + |st.skipped| + 1
  {
    RegisterShapes(cfg, st.db, item, w);
    InsertUserKeepsConstraints(st.db, NewUser(item, w), true);
    var st' := RegisterNext(cfg, st, item, w);
    forall a | 0 <= a < |st.created|
      ensures Stored(st'.db, st.created[a])
      ensures |st'.created| > |st.created| ==> st.created[a].id != st'.created[|st.created|].id
    {
      assert Stored(st.db, st.created[a]);
    }
  }

  lemma {:induction false} BulkKeepsCreatedOk(cfg: Config, db: Db, items: seq<BulkItem>, ws: BatchTicks, n: nat)
    requires n <= |items| && Constraints(db)
    ensures var st := BulkUpTo(cfg, db, items, ws, n);
            Constraints(st.db) && CreatedOk(st) && |st.created| + |st.skipped| == n
    decreases n
  {
    if n > 0 {
      BulkKeepsCreatedOk(cfg, db, items, ws, n - 1);
      NextKeepsCreatedOk(cfg, BulkUpTo(cfg, db, items, ws, n - 1), items[n - 1], ws(n - 1));
    }
  }

  /** Whatever fails, each item is in exactly one list, and no two created users share an identifier
      or an address. */
  lemma CreatedAreDistinct(cfg: Config, db: Db, items: seq<BulkItem>, ws: BatchTicks, a: nat, b: nat)
    requires Constraints(db)
    ensures var st := BulkUpTo(cfg, db, items, ws, |items|);
            && |st.created| + |st.skipped| == |items|
            && (a < b < |st.created| ==>
                  st.created[a].id != st.created[b].id && st.created[a].email != st.created[b].email)
  {
    BulkKeepsCreatedOk(cfg, db, items, ws, |items|);
    var st := BulkUpTo(cfg, db, items, ws, |items|);
    if a < b < |st.created| {
      assert Stored(st.db, st.created[a]) && Stored(st.db, st.created[b]);
    }
  }

  /** Once every good item of a batch has its address in the store, running the batch again creates
      nothing and leaves the store as it is, whatever fails the second time. */
  lemma {:induction false} RerunCreatesNothing(cfg: Config, db: Db, items: seq<BulkItem>, ws: BatchTicks, n: nat)
    requires n <= |items|
    requires GoodAddresses(cfg, items, |items|) <= AddressesOf(db)
    ensures BulkUpTo(cfg, db, items, ws, n).created == [] && BulkUpTo(cfg, db, items, ws, n).db == db
    decreases n
  {
    if n > 0 {
      RerunCreatesNothing(cfg, db, items, ws, n - 1);
      ExistsMeansAddress(db, NormalizeEmail(items[n - 1].email));
      if Good(cfg, items[n - 1]) {
        GoodAddressesMean(cfg, items, |items|, NormalizeEmail(items[n - 1].email));
      }
    }
  }

  /** Load-test provisioning is repeatable: a batch that ran without faults creates nothing when it is
      run again, under any circumstances. */
  lemma BulkIsRepeatable(cfg: Config, db: Db, items: seq<BulkItem>, ws: BatchTicks, ws': BatchTicks)
    requires Healthy(db, items, ws)
    ensures var once := BulkUpTo(cfg, db, items, ws, |items|).db;
            var again := BulkUpTo(cfg, once, items, ws', |items|);
            again.created == [] && again.db == once
  {
    var once := BulkUpTo(cfg, db, items, ws, |items|).db;
    BulkPartitions(cfg, db, items, ws, |items|);
    RerunCreatesNothing(cfg, once, items, ws', |items|);
  }
}
