/** `/api/categories`: POST creates a category of the signed-in user under
    the unique key (userId, name, type), with the name trimmed first; GET
    lists the user's categories, optionally of one type, ordered by type and
    then by name. */
module CategoriesRoute {
  import opened Common
  import opened JsString
  import opened Sorting
  import opened Db

  /** The members of a POST body; neither is coerced. */
  datatype CategoryInput = CategoryInput(name: Field, kind: Field)

  /** `parsed.data` of `categoryCreateSchema`: the name is already trimmed. */
  datatype CategoryData = CategoryData(name: string, kind: Kind)

  const MaxNameLength: nat := 40

  // ---------------------------------------------------------------------
  // categoryCreateSchema.
  // ---------------------------------------------------------------------

  /** `z.string().trim().min(1).max(40)`: the length is that of the trimmed
      string, in UTF-16 code units. */
  predicate NameOk(f: Field) {
    f.Text? && 1 <= Utf16Length(Trim(f.text)) <= MaxNameLength
  }

  /** `z.enum(["INCOME", "EXPENSE"])`. */
  predicate KindOk(f: Field) {
    f.Text? && ParseKind(f.text).Some?
  }

  /** The paths of the issues of `categoryCreateSchema.safeParse(body)`, in
      schema order. */
  function CategoryIssues(inp: CategoryInput): (issues: seq<string>)
    ensures issues == [] <==> NameOk(inp.name) && KindOk(inp.kind)
    ensures "name" in issues <==> !NameOk(inp.name)
    ensures "type" in issues <==> !KindOk(inp.kind)
  {
    (if NameOk(inp.name) then [] else ["name"]) + (if KindOk(inp.kind) then [] else ["type"])
  }

  /** `parsed.data` when the parse succeeds: the trimmed name, which is not
      empty, has no white space at either end and is at most 40 code units
      long, and the type. */
  function ParseCategory(inp: CategoryInput): (r: Option<CategoryData>)
    ensures r.Some? <==> CategoryIssues(inp) == []
    ensures r.Some? ==>
              && r.value.name == Trim(inp.name.text)
              && r.value.name != [] && Utf16Length(r.value.name) <= MaxNameLength
              && !IsJsWhitespace(r.value.name[0]) && !IsJsWhitespace(r.value.name[|r.value.name| - 1])
              && Some(r.value.kind) == ParseKind(inp.kind.text)
  {
    if NameOk(inp.name) && KindOk(inp.kind) then
      TrimEnds(inp.name.text);
      Some(CategoryData(Trim(inp.name.text), ParseKind(inp.kind.text).value))
    else None
  }

  /** A name made only of white space, the empty name included, is
      rejected; any other name is rejected only for being too long. */
  lemma NameRejectedIffBlankOrLong(s: string)
    ensures !NameOk(Text(s)) <==> AllWhitespace(s) || Utf16Length(Trim(s)) > MaxNameLength
  {
    TrimEmptyIffWhitespace(s);
  }

  /** Padding a name with white space yields the same category. */
  lemma PaddedNameIsSameName(pad1: string, name: string, pad2: string, kind: Field)
    requires AllWhitespace(pad1) && AllWhitespace(pad2)
    ensures ParseCategory(CategoryInput(Text(pad1 + name + pad2), kind)) == ParseCategory(CategoryInput(Text(name), kind))
  {
    TrimOfPadded(pad1, name, pad2);
  }

  // ---------------------------------------------------------------------
  // POST.
  // ---------------------------------------------------------------------

  /** The answer of POST given the category table before the request; on
      success its payload is the row to append. */
  function CreateOutcome(cats: seq<Category>, session: Option<Id>, body: Body<CategoryInput>): (resp: Response<Category>)
    ensures SessionUser(session).None? ==> resp == Fail(401, "Unauthorized", [])
    ensures SessionUser(session).Some? && body.Unusable? ==> resp == Fail(400, "Body harus JSON", [])
    ensures SessionUser(session).Some? && body.NotAnObject? ==> resp == Fail(422, "Validasi gagal", [RootPath])
    ensures SessionUser(session).Some? && body.Object? && ParseCategory(body.fields).None? ==>
              resp == Fail(422, "Validasi gagal", CategoryIssues(body.fields))
    ensures SessionUser(session).Some? && body.Object? && ParseCategory(body.fields).Some? ==>
              var d := ParseCategory(body.fields).value;
              (HasKey(cats, SessionUser(session).value, d.name, d.kind) <==> resp == Fail(409, "Kategori sudah ada", []))
    ensures resp.Ok? ==>
              var user := SessionUser(session).value;
              && resp.status == 201
              && resp.value.id == CategoryIdAt(|cats|) && resp.value.userId == user
              && !HasKey(cats, user, resp.value.name, resp.value.kind)
              && HasKey(cats + [resp.value], user, resp.value.name, resp.value.kind)
  {
    match SessionUser(session)
    case None => Fail(401, "Unauthorized", [])
    case Some(user) =>
      match body
      case Unusable => Fail(400, "Body harus JSON", [])
      case NotAnObject => Fail(422, "Validasi gagal", [RootPath])
      case Object(inp) =>
        match ParseCategory(inp)
        case None => Fail(422, "Validasi gagal", CategoryIssues(inp))
        case Some(d) =>
          if HasKey(cats, user, d.name, d.kind) then Fail(409, "Kategori sudah ada", [])
          else
            var c := Category(CategoryIdAt(|cats|), user, d.name, d.kind);
            assert (cats + [c])[|cats|] == c;
            Ok(201, c)
  }

  /** `POST /api/categories`: answers as CreateOutcome says and appends the
      new row on success; on every other answer, 409 included, the tables
      are unchanged. */
  method Post(db: Database, session: Option<Id>, body: Body<CategoryInput>) returns (resp: Response<Category>)
    requires db.Valid()
    modifies db
    ensures db.Valid()
    ensures resp == CreateOutcome(old(db.categories), session, body)
    ensures db.transactions == old(db.transactions)
    ensures db.categories == if resp.Ok? then old(db.categories) + [resp.value] else old(db.categories)
  {
    var user := SessionUser(session);
    if user.None? {
      return Fail(401, "Unauthorized", []);
    }
    if body.Unusable? {
      return Fail(400, "Body harus JSON", []);
    }
    if body.NotAnObject? {
      return Fail(422, "Validasi gagal", [RootPath]);
    }
    var parsed := ParseCategory(body.fields);
    if parsed.None? {
      return Fail(422, "Validasi gagal", CategoryIssues(body.fields));
    }
    var d := parsed.value;
    if HasKey(db.categories, user.value, d.name, d.kind) {
      return Fail(409, "Kategori sudah ada", []);
    }
    var c := Category(CategoryIdAt(|db.categories|), user.value, d.name, d.kind);
    AddCategoryKeepsTables(db.categories, db.transactions, c);
    db.categories := db.categories + [c];
    resp := Ok(201, c);
  }

  /** A well-formed body whose key is free is created under the next id. */
  lemma CreateOutcomeCreates(cats: seq<Category>, user: Id, inp: CategoryInput)
    requires user != "" && ParseCategory(inp).Some?
    requires !HasKey(cats, user, ParseCategory(inp).value.name, ParseCategory(inp).value.kind)
    ensures var d := ParseCategory(inp).value;
            CreateOutcome(cats, Some(user), Object(inp)) == Ok(201, Category(CategoryIdAt(|cats|), user, d.name, d.kind))
  {
  }

  /** Creating the same category twice: the second request is a 409. */
  lemma RepeatedCreateConflicts(cats: seq<Category>, session: Option<Id>, body: Body<CategoryInput>)
    requires CreateOutcome(cats, session, body).Ok?
    ensures CreateOutcome(cats + [CreateOutcome(cats, session, body).value], session, body)
            == Fail(409, "Kategori sudah ada", [])
  {
  }

  /** Uniqueness includes the type: a user can hold one INCOME and one
      EXPENSE category of the same name, created one after the other. */
  lemma SameNameForBothTypes(cats: seq<Category>, user: Id, name: string)
    requires user != "" && NameOk(Text(name))
    requires !HasKey(cats, user, Trim(name), Income) && !HasKey(cats, user, Trim(name), Expense)
    ensures var first := CreateOutcome(cats, Some(user), Object(CategoryInput(Text(name), Text("INCOME"))));
            && first.Ok?
            && var second := CreateOutcome(cats + [first.value], Some(user), Object(CategoryInput(Text(name), Text("EXPENSE"))));
               && second.Ok?
               && first.value.name == second.value.name == Trim(name)
               && first.value.kind == Income && second.value.kind == Expense
  {
    var income := CategoryInput(Text(name), Text("INCOME"));
    var expense := CategoryInput(Text(name), Text("EXPENSE"));
    assert ParseCategory(income) == Some(CategoryData(Trim(name), Income));
    assert ParseCategory(expense) == Some(CategoryData(Trim(name), Expense));
    var c := Category(CategoryIdAt(|cats|), user, Trim(name), Income);
    CreateOutcomeCreates(cats, user, income);
    AppendKeepsKeyFree(cats, c, user, Trim(name), Expense);
    CreateOutcomeCreates(cats + [c], user, expense);
  }

  // ---------------------------------------------------------------------
  // GET ?type=INCOME|EXPENSE.
  // ---------------------------------------------------------------------

  /** `categoryQuerySchema`: a missing parameter means every type; a present
      one must be one of the two spellings, so `?type=` is rejected. The
      result is Some(filter) when the query is accepted. */
  function ParseTypeQuery(typeParam: Option<string>): (r: Option<Option<Kind>>)
    ensures r.None? <==> typeParam.Some? && ParseKind(typeParam.value).None?
    ensures r.Some? && r.value.Some? ==> typeParam.Some? && KindName(r.value.value) == typeParam.value
    ensures r == Some(None) <==> typeParam.None?
  {
    match typeParam
    case None => Some(None)
    case Some(s) =>
      match ParseKind(s)
      case None => None
      case Some(k) => Some(Some(k))
  }

  /** `where: { userId, ...(type ? { type } : {}) }`. */
  predicate Listed(c: Category, user: Id, kind: Option<Kind>) {
    c.userId == user && (kind.Some? ==> c.kind == kind.value)
  }

  function UserCategories(cats: seq<Category>, user: Id, kind: Option<Kind>): (rows: seq<Category>)
    ensures forall c :: c in rows <==> c in cats && Listed(c, user, kind)
  {
    if cats == [] then []
    else (if Listed(cats[0], user, kind) then [cats[0]] else []) + UserCategories(cats[1..], user, kind)
  }

  /** The rank of a type in `orderBy: { type: "asc" }`: the order in which
      the enum lists its values. */
  function KindRank(k: Kind): nat {
    match k
    case Income => 0
    case Expense => 1
  }

  /** `orderBy: { name: "asc" }`, as code-point order of the strings: a
      prefix comes first, otherwise the first differing character decides. */
  predicate NameLe(a: string, b: string) {
    if a == [] then true
    else if b == [] then false
    else if a[0] != b[0] then a[0] < b[0]
    else NameLe(a[1..], b[1..])
  }

  lemma {:induction false} NameLeTotal(a: string, b: string)
    ensures NameLe(a, b) || NameLe(b, a)
  {
    if a != [] && b != [] && a[0] == b[0] {
      NameLeTotal(a[1..], b[1..]);
    }
  }

  lemma {:induction false} NameLeTransitive(a: string, b: string, c: string)
    requires NameLe(a, b) && NameLe(b, c)
    ensures NameLe(a, c)
  {
    if a != [] && b != [] && c != [] && a[0] == b[0] && b[0] == c[0] {
      NameLeTransitive(a[1..], b[1..], c[1..]);
    }
  }

  lemma {:induction false} NameLeAntisymmetric(a: string, b: string)
    requires NameLe(a, b) && NameLe(b, a)
    ensures a == b
  {
    if a != [] && b != [] {
      NameLeAntisymmetric(a[1..], b[1..]);
      assert a == [a[0]] + a[1..] && b == [b[0]] + b[1..];
    }
  }

  /** `orderBy: [{ type: "asc" }, { name: "asc" }]`. */
  predicate ByTypeThenName(x: Category, y: Category) {
    KindRank(x.kind) < KindRank(y.kind) || (x.kind == y.kind && NameLe(x.name, y.name))
  }

  lemma ByTypeThenNameIsTotalPreorder()
    ensures IsTotalPreorder(ByTypeThenName)
  {
    forall a: Category, b: Category ensures ByTypeThenName(a, b) || ByTypeThenName(b, a) {
      NameLeTotal(a.name, b.name);
    }
    forall a: Category, b: Category, c: Category | ByTypeThenName(a, b) && ByTypeThenName(b, c)
      ensures ByTypeThenName(a, c)
    {
      if a.kind == b.kind == c.kind {
        NameLeTransitive(a.name, b.name, c.name);
      }
    }
  }

  /** Within one user's valid table, two rows the order ranks equal both
      ways are the same category key, so no two distinct rows tie. */
  lemma NoTiesAmongUserRows(cats: seq<Category>, i: nat, j: nat)
    requires UniqueKeys(cats) && i < j < |cats| && cats[i].userId == cats[j].userId
    ensures !(ByTypeThenName(cats[i], cats[j]) && ByTypeThenName(cats[j], cats[i]))
  {
    if ByTypeThenName(cats[i], cats[j]) && ByTypeThenName(cats[j], cats[i]) {
      NameLeAntisymmetric(cats[i].name, cats[j].name);
    }
  }

  function ListSorted(cats: seq<Category>, user: Id, kind: Option<Kind>): (rows: seq<Category>)
    ensures SortedBy(rows, ByTypeThenName)
    ensures multiset(rows) == multiset(UserCategories(cats, user, kind))
    ensures forall c :: c in rows <==> c in cats && Listed(c, user, kind)
  {
    ByTypeThenNameIsTotalPreorder();
    var rows := SortBy(UserCategories(cats, user, kind), ByTypeThenName);
    forall c ensures c in rows <==> c in UserCategories(cats, user, kind) {
      PermutationMembers(rows, UserCategories(cats, user, kind), c);
    }
    rows
  }

  /** `GET /api/categories`: 401 without a user, 422 for a type outside the
      enum, otherwise exactly the user's categories (of the requested type,
      when one is given), INCOME before EXPENSE and by name within a type. */
  function List(db: Database, session: Option<Id>, typeParam: Option<string>): (resp: Response<seq<Category>>)
    reads db
    ensures SessionUser(session).None? ==> resp == Fail(401, "Unauthorized", [])
    ensures SessionUser(session).Some? && ParseTypeQuery(typeParam).None? ==>
              resp == Fail(422, "Validasi query gagal", ["type"])
    ensures resp.Ok? <==> SessionUser(session).Some? && ParseTypeQuery(typeParam).Some?
    ensures resp.Ok? ==>
              var user, kind := SessionUser(session).value, ParseTypeQuery(typeParam).value;
              && resp.status == 200
              && (forall c :: c in resp.value <==> c in db.categories && c.userId == user
                                                   && (typeParam.Some? ==> KindName(c.kind) == typeParam.value))
              && multiset(resp.value) == multiset(UserCategories(db.categories, user, kind))
              && (forall i, j :: 0 <= i < j < |resp.value| ==>
                    KindRank(resp.value[i].kind) <= KindRank(resp.value[j].kind)
                    && (resp.value[i].kind == resp.value[j].kind ==> NameLe(resp.value[i].name, resp.value[j].name)))
  {
    match SessionUser(session)
    case None => Fail(401, "Unauthorized", [])
    case Some(user) =>
      match ParseTypeQuery(typeParam)
      case None => Fail(422, "Validasi query gagal", ["type"])
      case Some(kind) =>
        var rows := ListSorted(db.categories, user, kind);
        assert forall c :: c in rows ==> (typeParam.Some? ==> KindName(c.kind) == typeParam.value);
        assert forall c :: c in db.categories && c.userId == user && (typeParam.Some? ==> KindName(c.kind) == typeParam.value)
                           ==> Listed(c, user, kind);
        Ok(200, rows)
  }
}
