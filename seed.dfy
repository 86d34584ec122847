/** `POST /api/categories/seed`: gives the signed-in user the sixteen default
    categories with `createMany({ skipDuplicates: true })`, inserting each
    default whose (userId, name, type) key is still free and counting the
    insertions. */
module SeedRoute {
  import opened Common
  import opened Db

  const ExpenseDefaults: seq<string> := [
    "Makan & Minum", "Transport", "Belanja", "Kos/Tempat Tinggal", "Tagihan",
    "Pulsa/Internet", "Kesehatan", "Hiburan", "Pendidikan", "Lainnya"
  ]

  const IncomeDefaults: seq<string> := ["Gaji", "Bonus", "Freelance", "Hadiah", "Dividen", "Lainnya"]

  /** One element of `data`, without the userId every element shares. */
  datatype Default = Default(name: string, kind: Kind)

  datatype SeedReport = SeedReport(message: string, createdCount: nat)

  function Tagged(names: seq<string>, kind: Kind): (ds: seq<Default>)
    ensures |ds| == |names|
    ensures forall i :: 0 <= i < |ds| ==> ds[i] == Default(names[i], kind)
  {
    seq(|names|, i requires 0 <= i < |names| => Default(names[i], kind))
  }

  /** `data`: the EXPENSE defaults followed by the INCOME defaults. */
  function Defaults(): seq<Default> {
    Tagged(ExpenseDefaults, Expense) + Tagged(IncomeDefaults, Income)
  }

  function CountKind(ds: seq<Default>, kind: Kind): nat {
    if ds == [] then 0 else (if ds[0].kind == kind then 1 else 0) + CountKind(ds[1..], kind)
  }

  predicate NoRepeats(ds: seq<Default>) {
    forall i, j :: 0 <= i < j < |ds| ==> ds[i] != ds[j]
  }

  lemma {:induction false} CountTagged(names: seq<string>, kind: Kind, other: Kind)
    requires kind != other
    ensures CountKind(Tagged(names, kind), kind) == |names|
    ensures CountKind(Tagged(names, kind), other) == 0
  {
    if names != [] {
      assert Tagged(names, kind)[1..] == Tagged(names[1..], kind);
      CountTagged(names[1..], kind, other);
    }
  }

  lemma {:induction false} CountAppend(a: seq<Default>, b: seq<Default>, kind: Kind)
    ensures CountKind(a + b, kind) == CountKind(a, kind) + CountKind(b, kind)
  {
    if a == [] {
      assert a + b == b;
    } else {
      assert (a + b)[1..] == a[1..] + b;
      CountAppend(a[1..], b, kind);
    }
  }

  /** Ten EXPENSE and six INCOME defaults, sixteen in all, no (name, type)
      twice; "Lainnya" is among both, which the key allows because the types
      differ. */
  lemma DefaultsShape()
    ensures |Defaults()| == 16
    ensures CountKind(Defaults(), Expense) == 10 && CountKind(Defaults(), Income) == 6
    ensures Default("Lainnya", Expense) in Defaults() && Default("Lainnya", Income) in Defaults()
    ensures NoRepeats(Defaults())
  {
    DefaultsCounts();
    DefaultsNoRepeats();
    assert Defaults()[9] == Default("Lainnya", Expense) && Defaults()[15] == Default("Lainnya", Income);
  }

  lemma DefaultsCounts()
    ensures CountKind(Defaults(), Expense) == 10 && CountKind(Defaults(), Income) == 6
  {
    CountTagged(ExpenseDefaults, Expense, Income);
    CountTagged(IncomeDefaults, Income, Expense);
    CountAppend(Tagged(ExpenseDefaults, Expense), Tagged(IncomeDefaults, Income), Expense);
    CountAppend(Tagged(ExpenseDefaults, Expense), Tagged(IncomeDefaults, Income), Income);
  }

  lemma DefaultsNoRepeats()
    ensures NoRepeats(Defaults())
  {
    NamesDistinct();
    TaggedNoRepeats(ExpenseDefaults, Expense);
    TaggedNoRepeats(IncomeDefaults, Income);
    AppendNoRepeats(Tagged(ExpenseDefaults, Expense), Tagged(IncomeDefaults, Income));
  }

  lemma TaggedNoRepeats(names: seq<string>, kind: Kind)
    requires forall i, j :: 0 <= i < j < |names| ==> names[i] != names[j]
    ensures NoRepeats(Tagged(names, kind))
  {
  }

  /** Lists of different types never share an element. */
  lemma AppendNoRepeats(a: seq<Default>, b: seq<Default>)
    requires NoRepeats(a) && NoRepeats(b)
    requires forall i, j :: 0 <= i < |a| && 0 <= j < |b| ==> a[i].kind != b[j].kind
    ensures NoRepeats(a + b)
  {
    forall i, j | 0 <= i < j < |a + b| ensures (a + b)[i] != (a + b)[j] {
      if j < |a| {
        assert (a + b)[i] == a[i] && (a + b)[j] == a[j];
      } else if |a| <= i {
        assert (a + b)[i] == b[i - |a|] && (a + b)[j] == b[j - |a|];
      } else {
        assert (a + b)[i] == a[i] && (a + b)[j] == b[j - |a|];
      }
    }
  }

  lemma NamesDistinct()
    ensures forall i, j :: 0 <= i < j < |ExpenseDefaults| ==> ExpenseDefaults[i] != ExpenseDefaults[j]
    ensures forall i, j :: 0 <= i < j < |IncomeDefaults| ==> IncomeDefaults[i] != IncomeDefaults[j]
  {
  }

  // ---------------------------------------------------------------------
  // createMany with skipDuplicates.
  // ---------------------------------------------------------------------

  /** One element of `data`: inserted under the next id unless its key is
      already taken. */
  function SeedStep(cats: seq<Category>, user: Id, d: Default): seq<Category> {
    if HasKey(cats, user, d.name, d.kind) then cats
    else cats + [Category(CategoryIdAt(|cats|), user, d.name, d.kind)]
  }

  /** The elements of `data` in order. */
  function SeedInto(cats: seq<Category>, user: Id, ds: seq<Default>): seq<Category> {
    if ds == [] then cats
    else SeedStep(SeedInto(cats, user, ds[..|ds| - 1]), user, ds[|ds| - 1])
  }

  /** How many of `ds` have a key not yet taken in `cats`. */
  function AbsentCount(cats: seq<Category>, user: Id, ds: seq<Default>): nat {
    if ds == [] then 0
    else AbsentCount(cats, user, ds[..|ds| - 1]) + (if HasKey(cats, user, ds[|ds| - 1].name, ds[|ds| - 1].kind) then 0 else 1)
  }

  lemma SeedStepKeys(cats: seq<Category>, user: Id, d: Default, u: Id, n: string, k: Kind)
    ensures HasKey(SeedStep(cats, user, d), u, n, k) <==> HasKey(cats, u, n, k) || (u == user && d == Default(n, k))
  {
    var next := SeedStep(cats, user, d);
    if next != cats {
      assert next[|cats|] == Category(CategoryIdAt(|cats|), user, d.name, d.kind);
      if HasKey(next, u, n, k) {
        var i :| 0 <= i < |next| && next[i].userId == u && next[i].name == n && next[i].kind == k;
        if i < |cats| {
          assert next[i] == cats[i];
        }
      }
      if HasKey(cats, u, n, k) {
        var i :| 0 <= i < |cats| && cats[i].userId == u && cats[i].name == n && cats[i].kind == k;
        assert next[i] == cats[i];
      }
    }
  }

  /** After seeding, a key is taken exactly when it was taken before or is
      one of the user's defaults. */
  lemma {:induction false} SeedKeys(cats: seq<Category>, user: Id, ds: seq<Default>, u: Id, n: string, k: Kind)
    ensures HasKey(SeedInto(cats, user, ds), u, n, k) <==> HasKey(cats, u, n, k) || (u == user && Default(n, k) in ds)
  {
    if ds != [] {
      var init := ds[..|ds| - 1];
      SeedKeys(cats, user, init, u, n, k);
      SeedStepKeys(SeedInto(cats, user, init), user, ds[|ds| - 1], u, n, k);
      assert ds == init + [ds[|ds| - 1]];
    }
  }

  /** Every default of the user is present afterwards. */
  lemma SeedCoversDefaults(cats: seq<Category>, user: Id, ds: seq<Default>)
    ensures forall d :: d in ds ==> HasKey(SeedInto(cats, user, ds), user, d.name, d.kind)
  {
    forall d | d in ds ensures HasKey(SeedInto(cats, user, ds), user, d.name, d.kind) {
      SeedKeys(cats, user, ds, user, d.name, d.kind);
    }
  }

  /** Existing rows, other users' included, stay where they were and as they
      were; every added row is one of the user's defaults under the id of
      its position. */
  lemma {:induction false} SeedKeepsRows(cats: seq<Category>, user: Id, ds: seq<Default>)
    ensures var after := SeedInto(cats, user, ds);
            && |cats| <= |after| && after[..|cats|] == cats
            && forall i :: |cats| <= i < |after| ==>
                 after[i].id == CategoryIdAt(i) && after[i].userId == user && Default(after[i].name, after[i].kind) in ds
  {
    if ds != [] {
      var init := ds[..|ds| - 1];
      var d := ds[|ds| - 1];
      SeedKeepsRows(cats, user, init);
      var mid := SeedInto(cats, user, init);
      var after := SeedInto(cats, user, ds);
      assert forall x :: x in init ==> x in ds;
      if after != mid {
        assert after[..|mid|] == mid;
        assert after[..|cats|] == mid[..|cats|];
      }
    }
  }

  /** With no default listed twice, one row is added per default whose key
      was free before seeding. */
  lemma {:induction false} SeedCount(cats: seq<Category>, user: Id, ds: seq<Default>)
    requires NoRepeats(ds)
    ensures |SeedInto(cats, user, ds)| == |cats| + AbsentCount(cats, user, ds)
  {
    if ds != [] {
      var init := ds[..|ds| - 1];
      var d := ds[|ds| - 1];
      assert NoRepeats(init);
      SeedCount(cats, user, init);
      assert d !in init by {
        forall i | 0 <= i < |init| ensures init[i] != d {
          assert init[i] == ds[i];
        }
      }
      SeedKeys(cats, user, init, user, d.name, d.kind);
    }
  }

  /** When every default's key is taken, seeding changes nothing. */
  lemma {:induction false} SeedPresentIsNoOp(cats: seq<Category>, user: Id, ds: seq<Default>)
    requires forall d :: d in ds ==> HasKey(cats, user, d.name, d.kind)
    ensures SeedInto(cats, user, ds) == cats
    ensures AbsentCount(cats, user, ds) == 0
  {
    if ds != [] {
      var init := ds[..|ds| - 1];
      assert forall x :: x in init ==> x in ds;
      assert ds[|ds| - 1] in ds;
      SeedPresentIsNoOp(cats, user, init);
    }
  }

  /** Seeding twice is seeding once, and the second time inserts nothing. */
  lemma SeedIdempotent(cats: seq<Category>, user: Id, ds: seq<Default>)
    ensures SeedInto(SeedInto(cats, user, ds), user, ds) == SeedInto(cats, user, ds)
    ensures AbsentCount(SeedInto(cats, user, ds), user, ds) == 0
  {
    SeedCoversDefaults(cats, user, ds);
    SeedPresentIsNoOp(SeedInto(cats, user, ds), user, ds);
  }

  // ---------------------------------------------------------------------
  // POST.
  // ---------------------------------------------------------------------

  /** `createMany({ data, skipDuplicates: true })` on the categories table:
      every element whose key is free is inserted, in order, and the count
      of inserted rows is returned. */
  method CreateMany(db: Database, user: Id, data: seq<Default>) returns (count: nat)
    requires db.Valid()
    modifies db
    ensures db.Valid()
    ensures db.transactions == old(db.transactions)
    ensures db.categories == SeedInto(old(db.categories), user, data)
    ensures |db.categories| == |old(db.categories)| + count
  {
    count := 0;
    var i := 0;
    while i < |data|
      invariant 0 <= i <= |data|
      invariant db.Valid()
      invariant db.transactions == old(db.transactions)
      invariant db.categories == SeedInto(old(db.categories), user, data[..i])
      invariant |db.categories| == |old(db.categories)| + count
    {
      var d := data[i];
      assert data[..i + 1][..i] == data[..i];
      if !HasKey(db.categories, user, d.name, d.kind) {
        var c := Category(CategoryIdAt(|db.categories|), user, d.name, d.kind);
        AddCategoryKeepsTables(db.categories, db.transactions, c);
        db.categories := db.categories + [c];
        count := count + 1;
      }
      i := i + 1;
    }
    assert data[..i] == data;
  }

  /** `POST /api/categories/seed`: 401 without a user and nothing created;
      otherwise the defaults are inserted one after another, skipping those
      whose key is taken, and `createdCount` is the number of rows added,
      which is the number of defaults that were absent. */
  method Post(db: Database, session: Option<Id>) returns (resp: Response<SeedReport>)
    requires db.Valid()
    modifies db
    ensures db.Valid()
    ensures db.transactions == old(db.transactions)
    ensures SessionUser(session).None? ==> resp == Fail(401, "Unauthorized", []) && db.categories == old(db.categories)
    ensures SessionUser(session).Some? ==>
              var user := SessionUser(session).value;
              && db.categories == SeedInto(old(db.categories), user, Defaults())
              && resp == Ok(200, SeedReport("Seed selesai", AbsentCount(old(db.categories), user, Defaults())))
              && |db.categories| == |old(db.categories)| + resp.value.createdCount
  {
    var user := SessionUser(session);
    if user.None? {
      return Fail(401, "Unauthorized", []);
    }
    var count := CreateMany(db, user.value, Defaults());
    DefaultsNoRepeats();
    SeedCount(old(db.categories), user.value, Defaults());
    resp := Ok(200, SeedReport("Seed selesai", count));
  }
}
