/** `/api/transactions`: POST records one income or expense of the signed-in
    user on one of that user's categories of the same type; GET lists the
    user's transactions of one UTC month, newest first. */
module TransactionsRoute {
  import opened Common
  import opened JsString
  import opened MonthQuery
  import opened Sorting
  import opened Db
  import SummaryRoute

  /** A JavaScript number as `z.coerce.number()` leaves it: `Number(x)` of
      the submitted value. */
  datatype JsNumber = Finite(value: real) | Infinite(positive: bool) | NotANumber

  /** The members of a POST body after zod's coercions: `amount` is
      `Number(body.amount)` and `date` the time value of
      `new Date(body.date)`, None for an Invalid Date. */
  datatype TxInput = TxInput(amount: JsNumber, kind: Field, date: Option<int>, categoryId: Field, note: Field)

  /** `parsed.data` of `txCreateSchema`. */
  datatype TxData = TxData(amount: int, kind: Kind, date: int, categoryId: Id, note: Option<string>)

  const MaxNoteLength: nat := 200

  // ---------------------------------------------------------------------
  // txCreateSchema.
  // ---------------------------------------------------------------------

  predicate IsPositiveInteger(a: JsNumber) {
    a.Finite? && a.value.Floor as real == a.value && a.value > 0.0
  }

  /** `z.coerce.number().int().positive()`: NaN stops at the type check with
      one issue; otherwise `int()` and `positive()` each add one issue when
      they fail, so a negative fraction or -Infinity yields two. */
  function AmountIssues(a: JsNumber): (issues: seq<string>)
    ensures forall k :: 0 <= k < |issues| ==> issues[k] == "amount"
    ensures issues == [] <==> IsPositiveInteger(a)
    ensures |issues| <= 2
  {
    match a
    case NotANumber => ["amount"]
    case Infinite(positive) => ["amount"] + (if positive then [] else ["amount"])
    case Finite(v) => (if v.Floor as real == v then [] else ["amount"]) + (if v > 0.0 then [] else ["amount"])
  }

  /** `z.enum(["INCOME", "EXPENSE"])`. */
  predicate KindOk(f: Field) {
    f.Text? && ParseKind(f.text).Some?
  }

  /** `z.string().min(1)`. */
  predicate CategoryIdOk(f: Field) {
    f.Text? && Utf16Length(f.text) >= 1
  }

  /** `z.string().max(200).optional()`: absent, or a string of at most 200
      UTF-16 code units; `null` is not absent. */
  predicate NoteOk(f: Field) {
    f.Absent? || (f.Text? && Utf16Length(f.text) <= MaxNoteLength)
  }

  predicate TxInputOk(inp: TxInput) {
    IsPositiveInteger(inp.amount) && KindOk(inp.kind) && inp.date.Some?
    && CategoryIdOk(inp.categoryId) && NoteOk(inp.note)
  }

  /** `txCreateSchema.safeParse(body).error.issues`, as the paths of the
      issues in schema order; every member is checked, not just the first
      that fails. */
  function TxIssues(inp: TxInput): (issues: seq<string>)
    ensures issues == [] <==> TxInputOk(inp)
    ensures "amount" in issues <==> !IsPositiveInteger(inp.amount)
    ensures "type" in issues <==> !KindOk(inp.kind)
    ensures "date" in issues <==> inp.date.None?
    ensures "categoryId" in issues <==> !CategoryIdOk(inp.categoryId)
    ensures "note" in issues <==> !NoteOk(inp.note)
  {
    var amount := AmountIssues(inp.amount);
    assert "amount" in amount <==> amount != [];
    assert forall p :: p in amount ==> p == "amount";
    amount
    + (if KindOk(inp.kind) then [] else ["type"])
    + (if inp.date.Some? then [] else ["date"])
    + (if CategoryIdOk(inp.categoryId) then [] else ["categoryId"])
    + (if NoteOk(inp.note) then [] else ["note"])
  }

  /** `parsed.data` when the parse succeeds. */
  function ParseTx(inp: TxInput): (r: Option<TxData>)
    ensures r.Some? <==> TxInputOk(inp)
    ensures r.Some? ==>
              && r.value.amount > 0 && r.value.amount as real == inp.amount.value
              && Some(r.value.kind) == ParseKind(inp.kind.text)
              && Some(r.value.date) == inp.date
              && r.value.categoryId == inp.categoryId.text && r.value.categoryId != ""
              && (inp.note.Absent? ==> r.value.note.None?)
              && (inp.note.Text? ==> r.value.note == Some(inp.note.text))
              && (r.value.note.Some? ==> Utf16Length(r.value.note.value) <= MaxNoteLength)
  {
    if TxInputOk(inp) then
      Some(TxData(inp.amount.value.Floor, ParseKind(inp.kind.text).value, inp.date.value, inp.categoryId.text,
                  if inp.note.Text? then Some(inp.note.text) else None))
    else None
  }

  // ---------------------------------------------------------------------
  // POST.
  // ---------------------------------------------------------------------

  /** The answer of POST given the tables before the request; on success its
      payload is the row to append. */
  function CreateOutcome(cats: seq<Category>, txs: seq<Transaction>, session: Option<Id>, body: Body<TxInput>)
    : (resp: Response<Transaction>)
    ensures SessionUser(session).None? ==> resp == Fail(401, "Unauthorized", [])
    ensures SessionUser(session).Some? && body.Unusable? ==> resp == Fail(400, "Body harus JSON", [])
    ensures SessionUser(session).Some? && body.NotAnObject? ==> resp == Fail(422, "Validasi gagal", [RootPath])
    ensures SessionUser(session).Some? && body.Object? && !TxInputOk(body.fields) ==>
              resp == Fail(422, "Validasi gagal", TxIssues(body.fields))
    ensures resp.Ok? ==> resp.status == 201 && resp.value.id == TransactionIdAt(|txs|)
                         && resp.value.userId == SessionUser(session).value && TransactionOk(resp.value, cats)
  {
    match SessionUser(session)
    case None => Fail(401, "Unauthorized", [])
    case Some(user) =>
      match body
      case Unusable => Fail(400, "Body harus JSON", [])
      case NotAnObject => Fail(422, "Validasi gagal", [RootPath])
      case Object(inp) =>
        match ParseTx(inp)
        case None => Fail(422, "Validasi gagal", TxIssues(inp))
        case Some(d) =>
          match FindCategory(cats, d.categoryId, user)
          case None => Fail(404, "Category tidak ditemukan", [])
          case Some(c) =>
            if c.kind != d.kind then Fail(400, "type transaksi harus sesuai type category", [])
            else Ok(201, Transaction(TransactionIdAt(|txs|), user, d.categoryId, d.kind, d.amount, d.date, d.note))
  }

  /** A well-formed body is answered 404 when the user owns no category with
      that id (whether it is missing or another user's) and 400 when the
      category's type differs; otherwise the new row carries the request's
      values, with a null note when none was sent. */
  lemma CreateOutcomeOnValidInput(cats: seq<Category>, txs: seq<Transaction>, user: Id, inp: TxInput)
    requires user != "" && TxInputOk(inp) && CategoriesOk(cats)
    ensures var resp := CreateOutcome(cats, txs, Some(user), Object(inp));
            var d := ParseTx(inp).value;
            && ((forall c :: c in cats && c.userId == user ==> c.id != inp.categoryId.text) ==>
                  resp == Fail(404, "Category tidak ditemukan", []))
            && (forall c :: c in cats && c.userId == user && c.id == inp.categoryId.text && c.kind != d.kind ==>
                  resp == Fail(400, "type transaksi harus sesuai type category", []))
            && (resp.Ok? ==> resp.value == Transaction(TransactionIdAt(|txs|), user, inp.categoryId.text, d.kind,
                                                       d.amount, d.date, d.note))
  {
    var d := ParseTx(inp).value;
    forall c | c in cats && c.userId == user && c.id == inp.categoryId.text && c.kind != d.kind
      ensures CreateOutcome(cats, txs, Some(user), Object(inp)) == Fail(400, "type transaksi harus sesuai type category", [])
    {
      var i :| 0 <= i < |cats| && cats[i] == c;
      FindCategoryUnique(cats, i, user);
    }
  }

  /** A valid body naming one of the user's own categories, of the same
      type, is answered 201 with the next row. */
  lemma CreateOutcomeCreates(cats: seq<Category>, txs: seq<Transaction>, user: Id, inp: TxInput, i: nat)
    requires user != "" && TxInputOk(inp) && CategoriesOk(cats)
    requires i < |cats| && cats[i].userId == user && cats[i].id == inp.categoryId.text
    requires Some(cats[i].kind) == ParseKind(inp.kind.text)
    ensures var d := ParseTx(inp).value;
            CreateOutcome(cats, txs, Some(user), Object(inp))
            == Ok(201, Transaction(TransactionIdAt(|txs|), user, inp.categoryId.text, d.kind, d.amount, d.date, d.note))
  {
    FindCategoryUnique(cats, i, user);
  }

  /** `POST /api/transactions`: answers as CreateOutcome says and appends the
      new row on success; on every other answer the tables are unchanged. */
  method Post(db: Database, session: Option<Id>, body: Body<TxInput>) returns (resp: Response<Transaction>)
    requires db.Valid()
    modifies db
    ensures db.Valid()
    ensures resp == CreateOutcome(old(db.categories), old(db.transactions), session, body)
    ensures db.categories == old(db.categories)
    ensures db.transactions == if resp.Ok? then old(db.transactions) + [resp.value] else old(db.transactions)
  {
    var user := SessionUser(session);
    if user.None? {
      return Fail(401, "Unauthorized", []);
    }
    if body.Unusable? {
      return Fail(400, "Body harus JSON", []);
    }
    if body.NotAnObject? {
      return Fail(422, "Validasi gagal", [RootPath]);
    }
    var parsed := ParseTx(body.fields);
    if parsed.None? {
      return Fail(422, "Validasi gagal", TxIssues(body.fields));
    }
    var d := parsed.value;
    var cat := FindCategory(db.categories, d.categoryId, user.value);
    if cat.None? {
      return Fail(404, "Category tidak ditemukan", []);
    }
    if cat.value.kind != d.kind {
      return Fail(400, "type transaksi harus sesuai type category", []);
    }
    var tx := Transaction(TransactionIdAt(|db.transactions|), user.value, d.categoryId, d.kind, d.amount, d.date, d.note);
    AddTransactionKeepsTables(db.categories, db.transactions, tx);
    db.transactions := db.transactions + [tx];
    resp := Ok(201, tx);
  }

  // ---------------------------------------------------------------------
  // GET ?month=YYYY-MM.
  // ---------------------------------------------------------------------

  /** `where: { userId, date: { gte: start, lt: end } }`. */
  function MonthRows(txs: seq<Transaction>, user: Id, r: Range): (rows: seq<Transaction>)
    ensures forall t :: t in rows <==> t in txs && t.userId == user && InRange(r, t.date)
  {
    if txs == [] then []
    else (if txs[0].userId == user && InRange(r, txs[0].date) then [txs[0]] else []) + MonthRows(txs[1..], user, r)
  }

  /** `orderBy: { date: "desc" }`: later dates first; rows with the same
      date are ties in any order. */
  function ByDateDesc(a: Transaction, b: Transaction): bool {
    a.date >= b.date
  }

  lemma ByDateDescIsTotalPreorder()
    ensures IsTotalPreorder(ByDateDesc)
  {
  }

  /** The month's rows of the user, newest first. */
  function ListMonth(txs: seq<Transaction>, user: Id, r: Range): (rows: seq<Transaction>)
    ensures SortedBy(rows, ByDateDesc)
    ensures multiset(rows) == multiset(MonthRows(txs, user, r))
    ensures forall t :: t in rows <==> t in txs && t.userId == user && InRange(r, t.date)
  {
    ByDateDescIsTotalPreorder();
    var rows := SortBy(MonthRows(txs, user, r), ByDateDesc);
    forall t ensures t in rows <==> t in MonthRows(txs, user, r) {
      PermutationMembers(rows, MonthRows(txs, user, r), t);
    }
    rows
  }

  /** `GET /api/transactions`: 401 without a user, 422 (with the failing
      field) for a missing or malformed month, otherwise exactly the user's
      transactions dated inside the month's range, each as often as it is
      stored, ordered by date descending. */
  function List(db: Database, session: Option<Id>, month: Option<string>): (resp: Response<seq<Transaction>>)
    reads db
    ensures SessionUser(session).None? ==> resp == Fail(401, "Unauthorized", [])
    ensures SessionUser(session).Some? && ResolveMonth(month).None? ==>
              resp == Fail(422, "Validasi query gagal", ["month"])
    ensures resp.Ok? <==> SessionUser(session).Some? && ResolveMonth(month).Some?
    ensures resp.Ok? ==>
              var user, r := SessionUser(session).value, ResolveMonth(month).value;
              && resp.status == 200
              && (forall t :: t in resp.value <==> t in db.transactions && t.userId == user && InRange(r, t.date))
              && multiset(resp.value) == multiset(MonthRows(db.transactions, user, r))
              && (forall i, j :: 0 <= i < j < |resp.value| ==> resp.value[i].date >= resp.value[j].date)
  {
    match SessionUser(session)
    case None => Fail(401, "Unauthorized", [])
    case Some(user) =>
      match ResolveMonth(month)
      case None => Fail(422, "Validasi query gagal", ["month"])
      case Some(r) => Ok(200, ListMonth(db.transactions, user, r))
  }

  // ---------------------------------------------------------------------
  // Agreement with the summary route.
  // ---------------------------------------------------------------------

  /** Sum of the amounts of the rows of `kind`. */
  function KindSum(rows: seq<Transaction>, kind: Kind): int {
    if rows == [] then 0 else (if rows[0].kind == kind then rows[0].amount else 0) + KindSum(rows[1..], kind)
  }

  lemma {:induction false} KindSumAppend(a: seq<Transaction>, b: seq<Transaction>, kind: Kind)
    ensures KindSum(a + b, kind) == KindSum(a, kind) + KindSum(b, kind)
  {
    if a == [] {
      assert a + b == b;
    } else {
      assert (a + b)[0] == a[0] && (a + b)[1..] == a[1..] + b;
      KindSumAppend(a[1..], b, kind);
    }
  }

  lemma KindSumRemoveAt(a: seq<Transaction>, k: nat, kind: Kind)
    requires k < |a|
    ensures KindSum(a, kind) == KindSum(RemoveAt(a, k), kind) + (if a[k].kind == kind then a[k].amount else 0)
  {
    var before, after := a[..k], a[k + 1..];
    assert a == before + ([a[k]] + after);
    KindSumAppend(before, [a[k]] + after, kind);
    assert ([a[k]] + after)[1..] == after;
    KindSumAppend(before, after, kind);
  }

  /** Summing by type does not depend on the order of the rows. */
  lemma {:induction false} KindSumPermutation(a: seq<Transaction>, b: seq<Transaction>, kind: Kind)
    requires multiset(a) == multiset(b)
    ensures KindSum(a, kind) == KindSum(b, kind)
    decreases |b|
  {
    if b == [] {
      assert |a| == |multiset(a)| == 0;
    } else {
      var k := MatchHead(a, b);
      KindSumRemoveAt(a, k, kind);
      KindSumPermutation(RemoveAt(a, k), b[1..], kind);
    }
  }

  lemma {:induction false} KindSumOfMonthRows(txs: seq<Transaction>, user: Id, r: Range, kind: Kind)
    ensures KindSum(MonthRows(txs, user, r), kind) == SummaryRoute.TotalOf(txs, user, kind, r)
  {
    if txs != [] {
      KindSumOfMonthRows(txs[1..], user, r, kind);
      var rest := MonthRows(txs[1..], user, r);
      if txs[0].userId == user && InRange(r, txs[0].date) {
        assert MonthRows(txs, user, r) == [txs[0]] + rest;
        assert ([txs[0]] + rest)[1..] == rest;
      } else {
        assert MonthRows(txs, user, r) == rest;
      }
    }
  }

  /** The listing and the summary accept the same requests and read the
      same month range: the listed rows of each type add up to the totals
      the summary reports. */
  lemma ListAgreesWithSummary(db: Database, session: Option<Id>, month: Option<string>)
    requires db.Valid()
    ensures List(db, session, month).Ok? <==> SummaryRoute.Get(db, session, month).Ok?
    ensures List(db, session, month).Ok? ==>
              var rows, s := List(db, session, month).value, SummaryRoute.Get(db, session, month).value;
              && Some(s.range) == ResolveMonth(month)
              && KindSum(rows, Income) == s.totalIncome
              && KindSum(rows, Expense) == s.totalExpense
  {
    var resp := List(db, session, month);
    if resp.Ok? {
      var user, r := SessionUser(session).value, ResolveMonth(month).value;
      KindSumPermutation(resp.value, MonthRows(db.transactions, user, r), Income);
      KindSumPermutation(resp.value, MonthRows(db.transactions, user, r), Expense);
      KindSumOfMonthRows(db.transactions, user, r, Income);
      KindSumOfMonthRows(db.transactions, user, r, Expense);
    }
  }
}
